/** Invitation files: host configuration blocks, the first one for the invitee. */
module Invitation {
  import opened Config
  import opened KnownKeys
  import opened Results
  import opened Text

  datatype Block = Block(
    name: string,
    address: string,
    connectTo: seq<string>,
    ifconfig: seq<string>,
    route: seq<string>,
    other: seq<Entry>)

  datatype File = File(netname: string, invitee: Block, hosts: seq<Block>)

  const SEPARATOR := "#---------------------------------------#"

  // Keys

  datatype Field = NameField | AddressField | ConnectToField | IfconfigField | RouteField | NetnameField | OtherField

  /** How keys are told apart. The functions below take it as a parameter; FieldOf is the program's. */
  type Classifier = string -> Field

  function FieldOf(key: string): Field {
    if EqualFold(key, "Name") then NameField
    else if EqualFold(key, "Address") then AddressField
    else if EqualFold(key, "ConnectTo") then ConnectToField
    else if EqualFold(key, "Ifconfig") then IfconfigField
    else if EqualFold(key, "Route") then RouteField
    else if EqualFold(key, "Netname") then NetnameField
    else OtherField
  }

  /** The values of the entries for a field, in order. */
  function Values(fo: Classifier, es: seq<Entry>, f: Field): seq<string> {
    if es == [] then [] else (if fo(es[0].key) == f then [es[0].value] else []) + Values(fo, es[1..], f)
  }

  function Others(fo: Classifier, es: seq<Entry>): seq<Entry> {
    if es == [] then [] else (if fo(es[0].key) == OtherField then [es[0]] else []) + Others(fo, es[1..])
  }

  function LastOr(vs: seq<string>, default: string): string {
    if vs == [] then default else vs[|vs| - 1]
  }

  function FirstOr(vs: seq<string>, default: string): string {
    if vs == [] then default else vs[0]
  }

  /** A block: the last name and address win, the lists keep their order, Netname is left to the file. */
  function BlockOf(fo: Classifier, es: seq<Entry>): Block {
    Block(LastOr(Values(fo, es, NameField), ""), LastOr(Values(fo, es, AddressField), ""),
          Values(fo, es, ConnectToField), Values(fo, es, IfconfigField), Values(fo, es, RouteField), Others(fo, es))
  }

  lemma Associative<T>(x: seq<T>, y: seq<T>, z: seq<T>)
    ensures x + (y + z) == x + y + z
  {}

  lemma {:induction false} ValuesConcat(fo: Classifier, a: seq<Entry>, b: seq<Entry>, f: Field)
    ensures Values(fo, a + b, f) == Values(fo, a, f) + Values(fo, b, f)
  {
    if a == [] {
      assert a + b == b;
    } else {
      var head := if fo(a[0].key) == f then [a[0].value] else [];
      ValuesConcat(fo, a[1..], b, f);
      assert (a + b)[1..] == a[1..] + b && (a + b)[0] == a[0];
      Associative(head, Values(fo, a[1..], f), Values(fo, b, f));
    }
  }

  lemma {:induction false} OthersConcat(fo: Classifier, a: seq<Entry>, b: seq<Entry>)
    ensures Others(fo, a + b) == Others(fo, a) + Others(fo, b)
  {
    if a == [] {
      assert a + b == b;
    } else {
      var head := if fo(a[0].key) == OtherField then [a[0]] else [];
      OthersConcat(fo, a[1..], b);
      assert (a + b)[1..] == a[1..] + b && (a + b)[0] == a[0];
      Associative(head, Others(fo, a[1..]), Others(fo, b));
    }
  }

  lemma BlockOfOneMore(fo: Classifier, es: seq<Entry>, e: Entry)
    ensures forall f :: Values(fo, es + [e], f) == Values(fo, es, f) + if fo(e.key) == f then [e.value] else []
    ensures Others(fo, es + [e]) == Others(fo, es) + if fo(e.key) == OtherField then [e] else []
  {
    forall f ensures Values(fo, es + [e], f) == Values(fo, es, f) + if fo(e.key) == f then [e.value] else [] {
      ValuesConcat(fo, es, [e], f);
      assert Values(fo, [e][1..], f) == [];
    }
    OthersConcat(fo, es, [e]);
    assert Others(fo, [e][1..]) == [];
  }

  method BlockFromEntries(fo: Classifier, es: seq<Entry>) returns (b: Block)
    ensures b == BlockOf(fo, es)
  {
    b := Block("", "", [], [], [], []);
    for i := 0 to |es|
      invariant b == BlockOf(fo, es[..i])
    {
      var e := es[i];
      BlockOfOneMore(fo, es[..i], e);
      assert es[..i + 1] == es[..i] + [e];
      match fo(e.key)
      case NameField => b := b.(name := e.value);
      case AddressField => b := b.(address := e.value);
      case ConnectToField => b := b.(connectTo := b.connectTo + [e.value]);
      case IfconfigField => b := b.(ifconfig := b.ifconfig + [e.value]);
      case RouteField => b := b.(route := b.route + [e.value]);
      case NetnameField =>
      case OtherField => b := b.(other := b.other + [e]);
    }
    assert es[..|es|] == es;
  }

  // Parsing

  function ParseConfigLine(names: seq<string>, line: string): Result<Entry> {
    var es := ParseText(names, line);
    if es.Err? then Err(es.error)
    else if |es.value| != 1 then Err("expected single entry")
    else Ok(es.value[0])
  }

  function Flush(current: seq<Entry>): seq<seq<Entry>> {
    if current == [] then [] else [current]
  }

  /** The blocks of the lines, the block `current` being open: '#' lines and Name lines end a block. */
  function Blocks(fo: Classifier, names: seq<string>, lines: seq<string>,
                  current: seq<Entry>): Result<seq<seq<Entry>>> {
    if lines == [] then Ok(Flush(current))
    else
      var line := Trim(lines[0]);
      if line == "" then Blocks(fo, names, lines[1..], current)
      else if line[0] == '#' then Prepend(Flush(current), Blocks(fo, names, lines[1..], []))
      else
        var e := ParseConfigLine(names, line);
        if e.Err? then Err(e.error)
        else if fo(e.value.key) == NameField then Prepend(Flush(current), Blocks(fo, names, lines[1..], [e.value]))
        else Blocks(fo, names, lines[1..], current + [e.value])
  }

  function ParseHosts(fo: Classifier, bs: seq<seq<Entry>>): Result<seq<Block>> {
    if bs == [] then Ok([])
    else if BlockOf(fo, bs[0]).name == "" then Err("host block missing Name")
    else Prepend([BlockOf(fo, bs[0])], ParseHosts(fo, bs[1..]))
  }

  function Assemble(fo: Classifier, bs: seq<seq<Entry>>): Result<File> {
    if bs == [] then Err("invitation file is empty")
    else if BlockOf(fo, bs[0]).name == "" then Err("first block missing Name")
    else
      var hosts := ParseHosts(fo, bs[1..]);
      if hosts.Err? then Err(hosts.error)
      else Ok(File(FirstOr(Values(fo, bs[0], NetnameField), ""), BlockOf(fo, bs[0]), hosts.value))
  }

  function ParseInvitation(fo: Classifier, names: seq<string>, text: string): Result<File> {
    var bs := Blocks(fo, names, Lines(text), []);
    if bs.Err? then Err(bs.error) else Assemble(fo, bs.value)
  }

  /** What one line does to the finished blocks and the open one. */
  function Scan(fo: Classifier, names: seq<string>, line: string, blocks: seq<seq<Entry>>, current: seq<Entry>)
    : Result<(seq<seq<Entry>>, seq<Entry>)>
  {
    if line == "" then Ok((blocks, current))
    else if line[0] == '#' then Ok((blocks + Flush(current), []))
    else
      var e := ParseConfigLine(names, line);
      if e.Err? then Err(e.error)
      else if fo(e.value.key) == NameField then Ok((blocks + Flush(current), [e.value]))
      else Ok((blocks, current + [e.value]))
  }

  lemma ScanLaw(fo: Classifier, names: seq<string>, lines: seq<string>, blocks: seq<seq<Entry>>, current: seq<Entry>)
    requires lines != []
    ensures var r := Scan(fo, names, Trim(lines[0]), blocks, current);
            Prepend(blocks, Blocks(fo, names, lines, current)) ==
              if r.Err? then Err(r.error) else Prepend(r.value.0, Blocks(fo, names, lines[1..], r.value.1))
  {
    var r := Scan(fo, names, Trim(lines[0]), blocks, current);
    if r.Ok? {
      PrependTwice(blocks, Flush(current), Blocks(fo, names, lines[1..], r.value.1));
    }
  }

  /** The inner parse of one scanned line never meets the limit. */
  lemma ScannedLineFits(limit: nat, names: seq<string>, line: string)
    requires '\n' !in line && |line| <= limit
    ensures ParseWithin(limit, names, line) == ParseText(names, line)
  {
    FittingLines(limit, line);
  }

  /** Runs the configuration parser on a single line. */
  method ReadConfigLine(limit: nat, names: seq<string>, line: string) returns (r: Result<Entry>)
    requires '\n' !in line && |line| <= limit
    ensures r == ParseConfigLine(names, line)
  {
    ScannedLineFits(limit, names, line);
    var es := Parse(limit, names, line);
    if es.Err? { return Err(es.error); }
    if |es.value| != 1 { return Err("expected single entry"); }
    return Ok(es.value[0]);
  }

  method SplitBlocks(limit: nat, fo: Classifier, names: seq<string>, lines: seq<string>)
    returns (r: Result<seq<seq<Entry>>>)
    requires ShortLines(limit, lines)
    ensures r == Blocks(fo, names, lines, [])
  {
    var blocks: seq<seq<Entry>>, current: seq<Entry> := [], [];
    PrependNone(Blocks(fo, names, lines, []));
    for i := 0 to |lines|
      invariant Blocks(fo, names, lines, []) == Prepend(blocks, Blocks(fo, names, lines[i..], current))
    {
      ScanLaw(fo, names, lines[i..], blocks, current);
      assert lines[i..][0] == lines[i] && lines[i..][1..] == lines[i + 1..];
      var state := ScanLine(limit, fo, names, lines[i], blocks, current);
      if state.Err? {
        return Err(state.error);
      }
      blocks, current := state.value.0, state.value.1;
    }
    return Ok(blocks + Flush(current));
  }

  method ScanLine(limit: nat, fo: Classifier, names: seq<string>, text: string, blocks: seq<seq<Entry>>,
                  current: seq<Entry>)
    returns (r: Result<(seq<seq<Entry>>, seq<Entry>)>)
    requires '\n' !in text && |text| <= limit
    ensures r == Scan(fo, names, Trim(text), blocks, current)
  {
    var line := Trim(text);
    if line == "" {
      return Ok((blocks, current));
    }
    if line[0] == '#' {
      return Ok((blocks + Flush(current), []));
    }
    TrimLaw(text);
    TrimShortens(text);
    var e := ReadConfigLine(limit, names, line);
    if e.Err? {
      return Err(e.error);
    }
    if fo(e.value.key) == NameField {
      return Ok((blocks + Flush(current), [e.value]));
    }
    return Ok((blocks, current + [e.value]));
  }

  method AssembleFile(fo: Classifier, blocks: seq<seq<Entry>>) returns (r: Result<File>)
    ensures r == Assemble(fo, blocks)
  {
    if blocks == [] { return Err("invitation file is empty"); }
    var first := BlockFromEntries(fo, blocks[0]);
    if first.name == "" { return Err("first block missing Name"); }
    var netname := FirstNetname(fo, blocks[0]);
    var rest := blocks[1..];
    var hosts: seq<Block> := [];
    PrependNone(ParseHosts(fo, rest));
    for i := 0 to |rest|
      invariant ParseHosts(fo, rest) == Prepend(hosts, ParseHosts(fo, rest[i..]))
    {
      var hb := BlockFromEntries(fo, rest[i]);
      if hb.name == "" { return Err("host block missing Name"); }
      PrependTwice(hosts, [hb], ParseHosts(fo, rest[i + 1..]));
      hosts := hosts + [hb];
    }
    assert hosts + [] == hosts;
    return Ok(File(netname, first, hosts));
  }

  method FirstNetname(fo: Classifier, es: seq<Entry>) returns (netname: string)
    ensures netname == FirstOr(Values(fo, es, NetnameField), "")
  {
    for i := 0 to |es|
      invariant Values(fo, es, NetnameField) == Values(fo, es[i..], NetnameField)
    {
      if fo(es[i].key) == NetnameField { return es[i].value; }
    }
    return "";
  }

  /** Parsing as far as the scanner gets; a line that is too long is the error unless an earlier line is one. */
  function InvitationWithin(limit: nat, fo: Classifier, names: seq<string>, text: string): Result<File> {
    var scanned := ScanLines(limit, text);
    var bs := Blocks(fo, names, scanned.lines, []);
    if bs.Err? then Err(bs.error)
    else if !scanned.whole then Err("token too long")
    else Assemble(fo, bs.value)
  }

  lemma InvitationWithinIff(limit: nat, fo: Classifier, names: seq<string>, text: string)
    ensures InvitationWithin(limit, fo, names, text).Ok? <==> Fits(limit, text) && ParseInvitation(fo, names, text).Ok?
    ensures InvitationWithin(limit, fo, names, text).Ok? ==>
              InvitationWithin(limit, fo, names, text) == ParseInvitation(fo, names, text)
  {
    if Fits(limit, text) { FittingLines(limit, text); }
  }

  method ParseFile(text: string) returns (r: Result<File>)
    ensures r == InvitationWithin(MAX_LINE, FieldOf, KNOWN_KEYS, text)
  {
    var scanned := ScanLines(MAX_LINE, text);
    ScannedAreShort(MAX_LINE, text);
    var bs := SplitBlocks(MAX_LINE, FieldOf, KNOWN_KEYS, scanned.lines);
    if bs.Err? { return Err(bs.error); }
    if !scanned.whole { return Err("token too long"); }
    r := AssembleFile(FieldOf, bs.value);
  }

  // Rendering

  /** The spelling in which a field is written. */
  function KeyFor(f: Field): string {
    match f
    case NameField => "Name"
    case AddressField => "Address"
    case ConnectToField => "ConnectTo"
    case IfconfigField => "Ifconfig"
    case RouteField => "Route"
    case NetnameField => "Netname"
    case OtherField => ""
  }

  function Listed(key: string, vs: seq<string>): seq<Entry> {
    seq(|vs|, i requires 0 <= i < |vs| => Entry(key, vs[i]))
  }

  /** A field that is written only when it has a value. */
  function Given(v: string): seq<string> {
    if v == "" then [] else [v]
  }

  /** The entries of a block in the order they are written. */
  function EntriesWith(keys: Field -> string, b: Block, netname: string): seq<Entry> {
    Listed(keys(NameField), [b.name]) + Listed(keys(NetnameField), Given(netname))
    + Listed(keys(ConnectToField), b.connectTo) + Listed(keys(AddressField), Given(b.address))
    + Listed(keys(IfconfigField), b.ifconfig)
    + Listed(keys(RouteField), b.route) + b.other
  }

  function EntriesOf(b: Block, netname: string): seq<Entry> {
    EntriesWith(KeyFor, b, netname)
  }

  function RenderHosts(hosts: seq<Block>): string {
    if hosts == [] then ""
    else SEPARATOR + "\n" + (RenderAll(EntriesOf(hosts[0], "")) + RenderHosts(hosts[1..]))
  }

  function RenderFile(f: File): string {
    RenderAll(EntriesOf(f.invitee, f.netname)) + RenderHosts(f.hosts)
  }

  /** Writes one line per value; `start` and `done` are what is there already. */
  method WriteField(b0: string, key: string, vs: seq<string>, ghost start: string,
                    ghost done: seq<Entry>) returns (b: string)
    requires b0 == start + RenderAll(done)
    ensures b == start + RenderAll(done + Listed(key, vs))
  {
    b := b0;
    assert done + Listed(key, vs[..0]) == done;
    for i := 0 to |vs|
      invariant b == start + RenderAll(done + Listed(key, vs[..i]))
    {
      var line := key + " = " + vs[i] + "\n";
      RenderAllOneMore(done + Listed(key, vs[..i]), Entry(key, vs[i]));
      assert done + Listed(key, vs[..i + 1]) == done + Listed(key, vs[..i]) + [Entry(key, vs[i])];
      b := b + line;
    }
    assert vs[..|vs|] == vs;
  }

  method WriteBlock(b0: string, blk: Block, netname: string) returns (b: string)
    ensures b == b0 + RenderAll(EntriesOf(blk, netname))
  {
    b := WriteField(b0, KeyFor(NameField), [blk.name], b0, []);
    ghost var done := Listed(KeyFor(NameField), [blk.name]);
    assert [] + done == done;
    b := WriteField(b, KeyFor(NetnameField), Given(netname), b0, done);
    done := done + Listed(KeyFor(NetnameField), Given(netname));
    b := WriteField(b, KeyFor(ConnectToField), blk.connectTo, b0, done);
    done := done + Listed(KeyFor(ConnectToField), blk.connectTo);
    b := WriteField(b, KeyFor(AddressField), Given(blk.address), b0, done);
    done := done + Listed(KeyFor(AddressField), Given(blk.address));
    b := WriteField(b, KeyFor(IfconfigField), blk.ifconfig, b0, done);
    done := done + Listed(KeyFor(IfconfigField), blk.ifconfig);
    b := WriteField(b, KeyFor(RouteField), blk.route, b0, done);
    done := done + Listed(KeyFor(RouteField), blk.route);
    b := WriteOther(b, blk.other, b0, done);
    assert done + blk.other == EntriesOf(blk, netname);
  }

  method WriteOther(b0: string, es: seq<Entry>, ghost start: string, ghost done: seq<Entry>) returns (b: string)
    requires b0 == start + RenderAll(done)
    ensures b == start + RenderAll(done + es)
  {
    var lines := Config.Render(es);
    RenderAllConcat(done, es);
    b := b0 + lines;
  }

  lemma {:induction false} RenderAllConcat(a: seq<Entry>, b: seq<Entry>)
    ensures RenderAll(a + b) == RenderAll(a) + RenderAll(b)
  {
    if a == [] {
      assert a + b == b;
    } else {
      RenderAllConcat(a[1..], b);
      assert (a + b)[1..] == a[1..] + b && (a + b)[0] == a[0];
      Associative(RenderLine(a[0]) + "\n", RenderAll(a[1..]), RenderAll(b));
    }
  }

  lemma Regroup(b: string, x: string, y: string, z: string)
    ensures b + (x + (y + z)) == b + x + y + z
  {}

  lemma HostWritten(b: string, hosts: seq<Block>, b': string)
    requires hosts != [] && b' == b + (SEPARATOR + "\n") + RenderAll(EntriesOf(hosts[0], ""))
    ensures b' + RenderHosts(hosts[1..]) == b + RenderHosts(hosts)
  {
    Regroup(b, SEPARATOR + "\n", RenderAll(EntriesOf(hosts[0], "")), RenderHosts(hosts[1..]));
  }

  method WriteHost(b0: string, hosts: seq<Block>, i: nat) returns (b: string)
    requires i < |hosts|
    ensures b + RenderHosts(hosts[i + 1..]) == b0 + RenderHosts(hosts[i..])
  {
    ghost var left := hosts[i..];
    assert left[0] == hosts[i] && left[1..] == hosts[i + 1..];
    b := WriteBlock(b0 + (SEPARATOR + "\n"), hosts[i], "");
    HostWritten(b0, left, b);
  }

  method WriteHosts(b0: string, hosts: seq<Block>) returns (b: string)
    ensures b == b0 + RenderHosts(hosts)
  {
    b := b0;
    for i := 0 to |hosts|
      invariant b + RenderHosts(hosts[i..]) == b0 + RenderHosts(hosts)
    {
      b := WriteHost(b, hosts, i);
    }
    assert b + "" == b;
  }

  method Render(f: File) returns (b: string)
    ensures b == RenderFile(f)
  {
    b := WriteBlock("", f.invitee, f.netname);
    b := WriteHosts(b, f.hosts);
  }
}
