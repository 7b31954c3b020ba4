/**
 * HandleBhyveCreate's serializer: the request body, decoded into the Go
 * struct BCreate, becomes one line of text,
 *
 *   env NOCOLOR=1 /usr/local/bin/cbsd bcreate inter=0 key=value key=value ...
 *
 * with one `key=value ` chunk per non-empty field, in the order the fields
 * are declared, the key being strings.ToLower of the Go field name (not the
 * JSON tag: RelativePath gives `relativepath`).  JName is first overwritten
 * with the id from the request path.  Go walks the struct by reflection;
 * here the fields are a static table of Go names in declaration order and
 * `Values` lists a descriptor's values in that same order.
 */
module Create {
  import opened GoText

  /** A character of a Go field name as the struct spells them: an ASCII letter or digit. */
  predicate IsIdentChar(c: char) {
    'a' <= c <= 'z' || 'A' <= c <= 'Z' || '0' <= c <= '9'
  }

  type IdentChar = c: char | IsIdentChar(c) witness 'a'

  /** A Go field name, or the configuration key made from one. */
  type GoIdent = seq<IdentChar>

  /** The creation request: the Go struct BCreate, every field a string, "" when absent. */
  datatype BCreate = BCreate(
    jName: string,
    xhci: string,
    aStart: string,
    relativePath: string,
    path: string,
    data: string,
    rcConf: string,
    hostHostname: string,
    ip4Addr: string,
    nicHwAddr: string,
    zfsSnapSrc: string,
    runAsap: string,
    interface: string,
    rctlNice: string,
    emulator: string,
    imgSize: string,
    imgType: string,
    vmCpus: string,
    vmRam: string,
    vmOsType: string,
    vmEfi: string,
    isoSite: string,
    isoImg: string,
    registerIsoName: string,
    registerIsoAs: string,
    vmHostBridge: string,
    bhyveFlags: string,
    virtioType: string,
    vmOsProfile: string,
    swapSize: string,
    vmIsoPath: string,
    vmGuestFs: string,
    vmVncPort: string,
    bhyveGenerateAcpi: string,
    bhyveWireMemory: string,
    bhyveRtsKeepsUtc: string,
    bhyveForceMsiIrq: string,
    bhyveX2ApicMode: string,
    bhyveMpTableGen: string,
    bhyveIgnoreMsrAcc: string,
    cdVncWait: string,
    bhyveVncResolution: string,
    bhyveVncTcpBind: string,
    bhyveVncVgaConf: string,
    nicDriver: string,
    vncPassword: string,
    mediaAutoEject: string,
    vmCpuTopology: string,
    debugEngine: string,
    cdBootFirmware: string,
    jailed: string,
    onPowerOff: string,
    onReboot: string,
    onCrash: string)

  /** The descriptor of a request body that sets nothing. */
  const EmptyBody := BCreate("", "", "", "", "", "", "", "", "", "", "", "", "", "", "", "", "", "", "", "", "", "", "", "", "", "", "", "", "", "", "", "", "", "", "", "", "", "", "", "", "", "", "", "", "", "", "", "", "", "", "", "", "", "")

  /** The Go field names of BCreate, in declaration order, nine to a line of the table. */
  const Names0: seq<GoIdent> := ["JName", "XHCI", "AStart", "RelativePath", "Path", "Data", "RCConf", "HostHostname", "IP4Addr"]
  const Names1: seq<GoIdent> := ["NicHWAddr", "ZfsSnapSrc", "RunASAP", "Interface", "RCtlNice", "Emulator", "ImgSize", "ImgType", "VmCPUs"]
  const Names2: seq<GoIdent> := ["VmRAM", "VmOSType", "VmEFI", "IsoSite", "IsoImg", "RegisterIsoName", "RegisterIsoAs", "VmHostBridge", "BhyveFlags"]
  const Names3: seq<GoIdent> := ["VirtioType", "VmOSProfile", "SwapSize", "VmIsoPath", "VmGuestFS", "VmVNCPort", "BhyveGenerateAcpi", "BhyveWireMemory", "BhyveRtsKeepsUtc"]
  const Names4: seq<GoIdent> := ["BhyveForceMsiIrq", "BhyveX2ApicMode", "BhyveMpTableGen", "BhyveIgnoreMsrAcc", "CdVncWait", "BhyveVNCResolution", "BhyveVNCTcpBind", "BhyveVNCVgaConf", "NicDriver"]
  const Names5: seq<GoIdent> := ["VNCPassword", "MediaAutoEject", "VmCPUTopology", "DebugEngine", "CdBootFirmware", "Jailed", "OnPowerOff", "OnReboot", "OnCrash"]

  const FieldNames: seq<GoIdent> := Names0 + Names1 + Names2 + Names3 + Names4 + Names5

  /** The number of fields of BCreate. */
  const FieldCount := 54

  lemma FieldNamesLength()
    ensures |FieldNames| == FieldCount
  {
    assert |Names0| == |Names1| == |Names2| == |Names3| == |Names4| == |Names5| == 9;
  }

  /** A descriptor's values in the order of FieldNames: the name first, then the other fields. */
  function Values(d: BCreate): (v: seq<string>)
    ensures |v| == |FieldNames|
  {
    FieldNamesLength();
    [d.jName] + OtherValues(d)
  }

  /** The values of the fields after JName, in declaration order, in the rows of the name table. */
  function OtherValues(d: BCreate): (v: seq<string>)
    ensures |v| == FieldCount - 1
  {
    [d.xhci, d.aStart, d.relativePath, d.path, d.data, d.rcConf, d.hostHostname, d.ip4Addr] +
    [d.nicHwAddr, d.zfsSnapSrc, d.runAsap, d.interface, d.rctlNice, d.emulator, d.imgSize, d.imgType, d.vmCpus] +
    [d.vmRam, d.vmOsType, d.vmEfi, d.isoSite, d.isoImg, d.registerIsoName, d.registerIsoAs, d.vmHostBridge, d.bhyveFlags] +
    [d.virtioType, d.vmOsProfile, d.swapSize, d.vmIsoPath, d.vmGuestFs, d.vmVncPort, d.bhyveGenerateAcpi, d.bhyveWireMemory, d.bhyveRtsKeepsUtc] +
    [d.bhyveForceMsiIrq, d.bhyveX2ApicMode, d.bhyveMpTableGen, d.bhyveIgnoreMsrAcc, d.cdVncWait, d.bhyveVncResolution, d.bhyveVncTcpBind, d.bhyveVncVgaConf, d.nicDriver] +
    [d.vncPassword, d.mediaAutoEject, d.vmCpuTopology, d.debugEngine, d.cdBootFirmware, d.jailed, d.onPowerOff, d.onReboot, d.onCrash]
  }

  /** main.go forces the name field to the id from the request path, whatever the body held. */
  function ForceName(body: BCreate, id: string): (d: BCreate)
    ensures Values(d) == [id] + Values(body)[1..]
  {
    var d := body.(jName := id);
    assert OtherValues(d) == OtherValues(body);
    d
  }

  function LowerChar(c: IdentChar): IdentChar {
    if 'A' <= c <= 'Z' then (c as int - 'A' as int + 'a' as int) as char else c
  }

  /** strings.ToLower of a Go field name: the configuration key cbsd expects. */
  function Key(name: GoIdent): (k: GoIdent)
    ensures |k| == |name|
    ensures forall i :: 0 <= i < |k| ==> !('A' <= k[i] <= 'Z')
    ensures forall i :: 0 <= i < |k| ==>
      k[i] == name[i] || ('A' <= name[i] <= 'Z' && k[i] as int == name[i] as int + 32)
  {
    seq(|name|, i requires 0 <= i < |name| => LowerChar(name[i]))
  }

  /** One `key=value` argument. */
  datatype Param = Param(key: GoIdent, value: string)

  /**
   * The arguments of the non-empty fields, in field order; an empty value
   * contributes nothing, so no argument ever has an empty value.
   */
  function Entries(names: seq<GoIdent>, vals: seq<string>): (es: seq<Param>)
    requires |names| == |vals|
    ensures |es| <= |vals|
    ensures forall j :: 0 <= j < |es| ==> es[j].value != ""
  {
    if vals == [] then []
    else
      var n := |vals| - 1;
      Entries(names[..n], vals[..n]) + (if vals[n] == "" then [] else [Param(Key(names[n]), vals[n])])
  }

  /** The text one argument adds: `key=value ` (fmt.Sprintf("%s=%v ", ...)). */
  function Chunk(p: Param): (c: string)
    ensures |c| == |p.key| + |p.value| + 2 && c[|c| - 1] == ' '
  {
    p.key + "=" + p.value + " "
  }

  /**
   * The first '=' of a chunk ends the key, since a Go field name holds none:
   * the text before it is the key, the text after it up to the final space
   * is the value, whatever the value holds.
   */
  lemma ChunkSplits(p: Param)
    ensures var c := Chunk(p);
      IndexOf(c, '=') == |p.key| && c[..|p.key|] == p.key && c[|p.key| + 1..|c| - 1] == p.value
  {
    var c := Chunk(p);
    assert c[|p.key|] == '=';
    assert forall j :: 0 <= j < |p.key| ==> c[j] == p.key[j] && c[j] != '=';
  }

  /** The chunks of the arguments, one after the other. */
  function Render(es: seq<Param>): (r: string)
    ensures |r| >= 2 * |es|
    ensures es != [] ==> r[|r| - 1] == ' '
  {
    if es == [] then "" else Render(es[..|es| - 1]) + Chunk(es[|es| - 1])
  }

  /** The words written to the builder before the fields. */
  const PrologueWords := ["env", "NOCOLOR=1", "/usr/local/bin/cbsd", "bcreate", "inter=0"]

  /** What is written before the fields: "env NOCOLOR=1 /usr/local/bin/cbsd bcreate inter=0 ". */
  const Prologue := Spaced(PrologueWords)

  /** The command line built for a descriptor. */
  function CreateCommand(d: BCreate): (r: string)
    ensures |r| >= |Prologue| && r[..|Prologue|] == Prologue
    ensures r[|r| - 1] == ' '
  {
    Prologue + Render(Entries(FieldNames, Values(d)))
  }

  /** Appending one field's chunk (or nothing, for an empty value) extends the rendering by one step. */
  lemma RenderStep(names: seq<GoIdent>, vals: seq<string>, i: nat)
    requires |names| == |vals| && i < |vals|
    ensures Render(Entries(names[..i + 1], vals[..i + 1])) ==
      Render(Entries(names[..i], vals[..i])) + (if vals[i] == "" then "" else Chunk(Param(Key(names[i]), vals[i])))
  {
    assert names[..i + 1][..i] == names[..i];
    assert vals[..i + 1][..i] == vals[..i];
    var es := Entries(names[..i], vals[..i]);
    if vals[i] != "" {
      var es' := es + [Param(Key(names[i]), vals[i])];
      assert Entries(names[..i + 1], vals[..i + 1]) == es';
      assert es'[..|es'| - 1] == es;
    } else {
      assert Entries(names[..i + 1], vals[..i + 1]) == es + [];
      assert es + [] == es;
    }
  }

  /**
   * The loop over the fields: for each non-empty value, append
   * `key=value ` to the builder, the key lower-cased from the field name.
   */
  method WriteFields(prefix: string, names: seq<GoIdent>, vals: seq<string>) returns (s: string)
    requires |names| == |vals|
    ensures s == prefix + Render(Entries(names, vals))
  {
    s := prefix;
    for i := 0 to |names|
      invariant s == prefix + Render(Entries(names[..i], vals[..i]))
    {
      RenderStep(names, vals, i);
      if |vals[i]| != 0 {
        var chunk := Chunk(Param(Key(names[i]), vals[i]));
        ConcatAssoc(prefix, Render(Entries(names[..i], vals[..i])), chunk);
        s := s + chunk;
      }
    }
    assert names[..|names|] == names;
    assert vals[..|vals|] == vals;
  }

  /**
   * HandleBhyveCreate after decoding: force the name, write the prologue,
   * then the chunks of the non-empty fields in declaration order.
   */
  method BuildCreateCommand(id: string, body: BCreate) returns (s: string)
    ensures s == CreateCommand(ForceName(body, id))
  {
    var d := ForceName(body, id);
    s := WriteFields(Prologue, FieldNames, Values(d));
  }

  // ---------------------------------------------------------------------
  // What the command line holds
  // ---------------------------------------------------------------------

  /** Field order is kept: the arguments of two runs of fields are those of each, one after the other. */
  lemma {:induction false} EntriesAppend(n1: seq<GoIdent>, v1: seq<string>, n2: seq<GoIdent>, v2: seq<string>)
    requires |n1| == |v1| && |n2| == |v2|
    ensures Entries(n1 + n2, v1 + v2) == Entries(n1, v1) + Entries(n2, v2)
    decreases |v2|
  {
    if v2 == [] {
      assert n1 + n2 == n1 && v1 + v2 == v1;
    } else {
      var k := |v2| - 1;
      var n, v := n1 + n2, v1 + v2;
      assert n[..|v| - 1] == n1 + n2[..k];
      assert v[..|v| - 1] == v1 + v2[..k];
      EntriesAppend(n1, v1, n2[..k], v2[..k]);
    }
  }

  /** A single field gives its argument when its value is non-empty, and nothing otherwise. */
  lemma EntriesOne(name: GoIdent, value: string)
    ensures Entries([name], [value]) == if value == "" then [] else [Param(Key(name), value)]
  {
    assert [name][..0] == [] && [value][..0] == [];
  }

  /** Every non-empty field has its argument in the command, keyed by its lower-cased Go name. */
  lemma {:induction false} EntriesHasField(names: seq<GoIdent>, vals: seq<string>, i: nat)
    requires |names| == |vals| && i < |vals| && vals[i] != ""
    ensures Param(Key(names[i]), vals[i]) in Entries(names, vals)
    decreases |vals|
  {
    var n := |vals| - 1;
    if i < n {
      EntriesHasField(names[..n], vals[..n], i);
    }
  }

  /** Every argument comes from a non-empty field. */
  lemma {:induction false} EntriesFromField(names: seq<GoIdent>, vals: seq<string>, j: nat)
    requires |names| == |vals| && j < |Entries(names, vals)|
    ensures exists i :: 0 <= i < |vals| && vals[i] != "" && Entries(names, vals)[j] == Param(Key(names[i]), vals[i])
    decreases |vals|
  {
    var n := |vals| - 1;
    var before := Entries(names[..n], vals[..n]);
    if j < |before| {
      EntriesFromField(names[..n], vals[..n], j);
      var i :| 0 <= i < n && vals[..n][i] != "" && before[j] == Param(Key(names[..n][i]), vals[..n][i]);
      assert vals[i] != "" && Entries(names, vals)[j] == Param(Key(names[i]), vals[i]);
    } else {
      assert Entries(names, vals)[j] == Param(Key(names[n]), vals[n]);
    }
  }

  /** Fields that are all empty give no arguments at all. */
  lemma {:induction false} EntriesAllEmpty(names: seq<GoIdent>, vals: seq<string>)
    requires |names| == |vals|
    requires Blank(vals)
    ensures Entries(names, vals) == []
    decreases |vals|
  {
    if vals != [] {
      var n := |vals| - 1;
      EntriesAllEmpty(names[..n], vals[..n]);
    }
  }

  lemma {:induction false} RenderAppend(a: seq<Param>, b: seq<Param>)
    ensures Render(a + b) == Render(a) + Render(b)
    decreases |b|
  {
    if b == [] {
      assert a + b == a;
    } else {
      var ab, b' := a + b, b[..|b| - 1];
      var x := Chunk(b[|b| - 1]);
      assert ab[..|ab| - 1] == a + b' && ab[|ab| - 1] == b[|b| - 1];
      assert Render(ab) == Render(a + b') + x;
      assert Render(b) == Render(b') + x;
      RenderAppend(a, b');
      ConcatAssoc(Render(a), Render(b'), x);
    }
  }

  /** The key is the lower-cased Go field name, not the JSON tag: RelativePath gives relativepath. */
  lemma KeysOfGoNames()
    ensures Key(FieldNames[0]) == "jname"
    ensures Key(FieldNames[3]) == "relativepath"
    ensures Key(FieldNames[8]) == "ip4addr"
  {
    assert FieldNames[0] == Names0[0] && FieldNames[3] == Names0[3] && FieldNames[8] == Names0[8];
  }

  /** A leading non-empty field gives the first argument, ahead of all the others. */
  lemma LeadingEntry(names: seq<GoIdent>, vals: seq<string>)
    requires |names| == |vals| >= 1 && vals[0] != ""
    ensures Entries(names, vals) == [Param(Key(names[0]), vals[0])] + Entries(names[1..], vals[1..])
  {
    var n0, ns, v0, vs := [names[0]], names[1..], [vals[0]], vals[1..];
    assert names == n0 + ns && vals == v0 + vs;
    EntriesAppend(n0, v0, ns, vs);
    EntriesOne(names[0], vals[0]);
  }

  /** The rendering of a leading argument is its chunk, ahead of the rest. */
  lemma RenderLeading(p: Param, es: seq<Param>)
    ensures Render([p] + es) == Chunk(p) + Render(es)
  {
    RenderAppend([p], es);
    assert [p][..0] == [];
  }

  /**
   * Whatever the body held, the first argument after the prologue is the
   * path id: with a non-empty id the command starts with
   * `env NOCOLOR=1 /usr/local/bin/cbsd bcreate inter=0 jname=<id> `.
   */
  lemma NameComesFirst(body: BCreate, id: string)
    requires id != ""
    ensures var es := Entries(FieldNames, Values(ForceName(body, id)));
      |es| >= 1 && es[0] == Param("jname", id)
    ensures CreateCommand(ForceName(body, id)) ==
      Prologue + Chunk(Param("jname", id)) + Render(Entries(FieldNames[1..], Values(body)[1..]))
  {
    KeysOfGoNames();
    var jname := Param("jname", id);
    var rest := Render(Entries(FieldNames[1..], Values(body)[1..]));
    NamedFirst(FieldNames, Values(ForceName(body, id)), Values(body)[1..], jname);
    ConcatAssoc(Prologue, Chunk(jname), rest);
  }

  lemma NamedFirst(names: seq<GoIdent>, vals: seq<string>, rest: seq<string>, p: Param)
    requires |names| == |vals| && vals == [p.value] + rest && p.value != "" && Key(names[0]) == p.key
    ensures var es := Entries(names, vals); |es| >= 1 && es[0] == p
    ensures Render(Entries(names, vals)) == Chunk(p) + Render(Entries(names[1..], rest))
  {
    assert vals[0] == p.value && vals[1..] == rest;
    LeadingEntry(names, vals);
    RenderLeading(p, Entries(names[1..], rest));
  }

  /** No value is set. */
  predicate Blank(vals: seq<string>) {
    forall i :: 0 <= i < |vals| ==> vals[i] == ""
  }

  lemma BlankAppend(a: seq<string>, b: seq<string>)
    requires Blank(a) && Blank(b)
    ensures Blank(a + b)
  {
  }

  /** Every field of the empty body is empty. */
  lemma EmptyBodyValues()
    ensures Blank(Values(EmptyBody))
  {
    var e := EmptyBody;
    var g0 := [e.xhci, e.aStart, e.relativePath, e.path, e.data, e.rcConf, e.hostHostname, e.ip4Addr];
    var g1 := [e.nicHwAddr, e.zfsSnapSrc, e.runAsap, e.interface, e.rctlNice, e.emulator, e.imgSize, e.imgType, e.vmCpus];
    var g2 := [e.vmRam, e.vmOsType, e.vmEfi, e.isoSite, e.isoImg, e.registerIsoName, e.registerIsoAs, e.vmHostBridge, e.bhyveFlags];
    var g3 := [e.virtioType, e.vmOsProfile, e.swapSize, e.vmIsoPath, e.vmGuestFs, e.vmVncPort, e.bhyveGenerateAcpi, e.bhyveWireMemory, e.bhyveRtsKeepsUtc];
    var g4 := [e.bhyveForceMsiIrq, e.bhyveX2ApicMode, e.bhyveMpTableGen, e.bhyveIgnoreMsrAcc, e.cdVncWait, e.bhyveVncResolution, e.bhyveVncTcpBind, e.bhyveVncVgaConf, e.nicDriver];
    var g5 := [e.vncPassword, e.mediaAutoEject, e.vmCpuTopology, e.debugEngine, e.cdBootFirmware, e.jailed, e.onPowerOff, e.onReboot, e.onCrash];
    assert Blank(g0) && Blank(g1) && Blank(g2) && Blank(g3) && Blank(g4) && Blank(g5);
    BlankAppend([e.jName], g0);
    BlankAppend([e.jName] + g0, g1);
    BlankAppend([e.jName] + g0 + g1, g2);
    BlankAppend([e.jName] + g0 + g1 + g2, g3);
    BlankAppend([e.jName] + g0 + g1 + g2 + g3, g4);
    BlankAppend([e.jName] + g0 + g1 + g2 + g3 + g4, g5);
    assert Values(e) == [e.jName] + g0 + g1 + g2 + g3 + g4 + g5;
  }

  /** A body that sets nothing still yields `jname=<id>`: the prologue and that one argument. */
  lemma EmptyBodyCommand(id: string)
    requires id != ""
    ensures CreateCommand(ForceName(EmptyBody, id)) == Prologue + "jname=" + id + " "
  {
    NameComesFirst(EmptyBody, id);
    EmptyBodyValues();
    EntriesAllEmpty(FieldNames[1..], Values(EmptyBody)[1..]);
  }

  /** For an empty body the id is the one argument. */
  lemma EmptyBodyEntries(id: string)
    requires id != ""
    ensures Entries(FieldNames, Values(ForceName(EmptyBody, id))) == [Param("jname", id)]
  {
    var vals := Values(ForceName(EmptyBody, id));
    assert vals[0] == id && vals[1..] == Values(EmptyBody)[1..];
    LeadingEntry(FieldNames, vals);
    KeysOfGoNames();
    EmptyBodyValues();
    EntriesAllEmpty(FieldNames[1..], Values(EmptyBody)[1..]);
    assert [Param("jname", id)] + [] == [Param("jname", id)];
  }
}
