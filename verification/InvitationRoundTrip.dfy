/** Parsing an invitation file gives a value that renders to a text with the same meaning. */
module InvitationRoundTrip {
  import opened Config
  import opened Invitation
  import opened Results
  import opened Text

  /** All that matters about how keys are told apart: not by case, and the written keys are read as what they are. */
  ghost predicate Reads(fo: Classifier) {
    && (forall a, b :: EqualFold(a, b) ==> fo(a) == fo(b))
    && KeysRead(fo, KeyFor) && KeysValid()
  }

  ghost predicate KeysRead(fo: Classifier, keys: Field -> string) {
    forall f: Field :: f != OtherField ==> fo(keys(f)) == f
  }

  ghost predicate KeysValid() {
    forall f: Field :: f != OtherField ==> ValidKey(KeyFor(f))
  }

  ghost predicate GoodEntry(names: seq<string>, e: Entry) {
    ValidEntry(e) && CanonicalKey(names, e.key) == e.key
  }

  ghost predicate GoodValues(vs: seq<string>) {
    forall v :: v in vs ==> ValidValue(v)
  }

  ghost predicate WellFormedBlock(fo: Classifier, names: seq<string>, b: Block) {
    && ValidValue(b.name) && GoodValues(Given(b.address))
    && GoodValues(b.connectTo) && GoodValues(b.ifconfig) && GoodValues(b.route)
    && forall e :: e in b.other ==> GoodEntry(names, e) && fo(e.key) == OtherField
  }

  /** What a file can say: values that can be written, other keys in canonical spelling. */
  ghost predicate WellFormedFile(fo: Classifier, names: seq<string>, f: File) {
    && GoodValues(Given(f.netname)) && WellFormedBlock(fo, names, f.invitee)
    && forall b :: b in f.hosts ==> WellFormedBlock(fo, names, b)
  }

  // What is parsed is well formed

  lemma {:induction false} ValuesAreValues(fo: Classifier, names: seq<string>, es: seq<Entry>, f: Field)
    requires WellFormed(names, es)
    ensures GoodValues(Values(fo, es, f))
  {
    if es != [] {
      assert ValidEntry(es[0]);
      ValuesAreValues(fo, names, es[1..], f);
    }
  }

  lemma {:induction false} OthersAreEntries(fo: Classifier, es: seq<Entry>)
    ensures forall e :: e in Others(fo, es) ==> e in es && fo(e.key) == OtherField
  {
    if es != [] { OthersAreEntries(fo, es[1..]); }
  }

  lemma BlockOfWellFormed(fo: Classifier, names: seq<string>, es: seq<Entry>)
    requires WellFormed(names, es) && BlockOf(fo, es).name != ""
    ensures WellFormedBlock(fo, names, BlockOf(fo, es))
  {
    ValuesAreValues(fo, names, es, NameField);
    ValuesAreValues(fo, names, es, AddressField);
    ValuesAreValues(fo, names, es, ConnectToField);
    ValuesAreValues(fo, names, es, IfconfigField);
    ValuesAreValues(fo, names, es, RouteField);
    OthersAreEntries(fo, es);
  }

  ghost predicate AllWellFormed(names: seq<string>, bs: seq<seq<Entry>>) {
    forall i :: 0 <= i < |bs| ==> WellFormed(names, bs[i])
  }

  lemma {:induction false} BlocksWellFormed(fo: Classifier, names: seq<string>, lines: seq<string>, current: seq<Entry>)
    requires forall i :: 0 <= i < |lines| ==> '\n' !in lines[i]
    requires WellFormed(names, current) && Blocks(fo, names, lines, current).Ok?
    ensures AllWellFormed(names, Blocks(fo, names, lines, current).value)
    decreases |lines|
  {
    if lines != [] {
      var line := Trim(lines[0]);
      if line == "" {
        BlocksWellFormed(fo, names, lines[1..], current);
      } else if line[0] == '#' {
        BlocksWellFormed(fo, names, lines[1..], []);
      } else {
        var e := ParseConfigLine(names, line).value;
        ParsedWellFormed(names, line);
        assert e in ParseText(names, line).value;
        BlocksWellFormed(fo, names, lines[1..], if fo(e.key) == NameField then [e] else current + [e]);
      }
    }
  }

  lemma {:induction false} ParseHostsWellFormed(fo: Classifier, names: seq<string>, bs: seq<seq<Entry>>)
    requires AllWellFormed(names, bs) && ParseHosts(fo, bs).Ok?
    ensures forall b :: b in ParseHosts(fo, bs).value ==> WellFormedBlock(fo, names, b)
  {
    if bs != [] {
      BlockOfWellFormed(fo, names, bs[0]);
      ParseHostsWellFormed(fo, names, bs[1..]);
    }
  }

  lemma ParsedFileWellFormed(fo: Classifier, names: seq<string>, text: string)
    requires ParseInvitation(fo, names, text).Ok?
    ensures WellFormedFile(fo, names, ParseInvitation(fo, names, text).value)
  {
    LinesHaveNoNewline(text);
    BlocksWellFormed(fo, names, Lines(text), []);
    var bs := Blocks(fo, names, Lines(text), []).value;
    BlockOfWellFormed(fo, names, bs[0]);
    ValuesAreValues(fo, names, bs[0], NetnameField);
    ParseHostsWellFormed(fo, names, bs[1..]);
  }

  // What is well formed reads back

  lemma RenderedLineIsEntry(names: seq<string>, e: Entry)
    requires ValidEntry(e)
    ensures ParseConfigLine(names, RenderLine(e)) == Ok(e.(key := CanonicalKey(names, e.key)))
  {
    RenderedLineParses(names, e);
    SingleLine(names, RenderLine(e));
  }

  /** A line alone says what it says as a line of a file. */
  lemma SingleLine(names: seq<string>, s: string)
    requires Trimmed(s) && s != "" && s[0] != '#' && '\n' !in s
    ensures ParseConfigLine(names, s) == ParseLine(names, s)
  {
    assert IndexOf(s, '\n') < 0 && DropCr(s) == s;
    TrimPadded(s);
    var e := ParseLine(names, s);
    assert Lines(s) == [s] && [s][1..] == [] && ParseLines(names, []) == Ok([]);
    assert e.Ok? ==> [e.value] + [] == [e.value];
  }

  /** One written entry extends the open block, or ends it if it is a Name. */
  lemma EntryReadsBack(fo: Classifier, names: seq<string>, e: Entry, rest: string, current: seq<Entry>)
    requires Reads(fo) && ValidEntry(e)
    ensures var e' := e.(key := CanonicalKey(names, e.key));
            Blocks(fo, names, Lines(RenderLine(e) + "\n" + rest), current) ==
              if fo(e.key) == NameField then Prepend(Flush(current), Blocks(fo, names, Lines(rest), [e']))
              else Blocks(fo, names, Lines(rest), current + [e'])
  {
    var line := RenderLine(e);
    RenderedLineParses(names, e);
    RenderedLineIsEntry(names, e);
    CanonicalKeyFolds(names, e.key);
    LinesCons(line, rest);
    assert DropCr(line) == line;
    TrimPadded(line);
    assert Lines(line + "\n" + rest)[1..] == Lines(rest);
  }

  lemma FirstEntryReadsBack(fo: Classifier, names: seq<string>, es: seq<Entry>, rest: string, current: seq<Entry>)
    requires Reads(fo) && es != [] && ValidEntry(es[0]) && fo(es[0].key) != NameField
    ensures Blocks(fo, names, Lines(RenderAll(es) + rest), current) ==
              Blocks(fo, names, Lines(RenderAll(es[1..]) + rest),
                     current + [es[0].(key := CanonicalKey(names, es[0].key))])
  {
    assert RenderAll(es) + rest == RenderLine(es[0]) + "\n" + (RenderAll(es[1..]) + rest);
    EntryReadsBack(fo, names, es[0], RenderAll(es[1..]) + rest, current);
  }

  lemma CanonicalCons(names: seq<string>, es: seq<Entry>, current: seq<Entry>)
    requires es != []
    ensures current + Canonical(names, es) ==
              current + [es[0].(key := CanonicalKey(names, es[0].key))] + Canonical(names, es[1..])
  {
    CanonicalHead(names, es);
  }

  lemma {:induction false} EntriesReadBack(fo: Classifier, names: seq<string>, es: seq<Entry>, rest: string,
                                           current: seq<Entry>)
    requires Reads(fo) && forall e :: e in es ==> ValidEntry(e) && fo(e.key) != NameField
    ensures Blocks(fo, names, Lines(RenderAll(es) + rest), current) ==
              Blocks(fo, names, Lines(rest), current + Canonical(names, es))
  {
    if es == [] {
      assert RenderAll(es) + rest == rest && current + Canonical(names, es) == current;
    } else {
      var e' := es[0].(key := CanonicalKey(names, es[0].key));
      assert ValidEntry(es[0]) && fo(es[0].key) != NameField;
      FirstEntryReadsBack(fo, names, es, rest, current);
      EntriesReadBack(fo, names, es[1..], rest, current + [e']);
      CanonicalCons(names, es, current);
    }
  }

  lemma SeparatorReadsBack(fo: Classifier, names: seq<string>, rest: string, current: seq<Entry>)
    ensures Blocks(fo, names, Lines(SEPARATOR + "\n" + rest), current) ==
              Prepend(Flush(current), Blocks(fo, names, Lines(rest), []))
  {
    assert '\n' !in SEPARATOR && |SEPARATOR| == 41 && SEPARATOR[0] == '#' && SEPARATOR[40] == '#';
    LinesCons(SEPARATOR, rest);
    assert DropCr(SEPARATOR) == SEPARATOR;
    TrimPadded(SEPARATOR);
    assert Lines(SEPARATOR + "\n" + rest)[1..] == Lines(rest);
  }

  /** The rest of a block after its Name. */
  function Tail(b: Block, netname: string): seq<Entry> {
    EntriesOf(b, netname)[1..]
  }

  lemma EntriesOfShape(fo: Classifier, names: seq<string>, b: Block, netname: string)
    requires Reads(fo) && WellFormedBlock(fo, names, b) && GoodValues(Given(netname))
    ensures EntriesOf(b, netname)[0] == Entry(KeyFor(NameField), b.name) && ValidEntry(EntriesOf(b, netname)[0])
    ensures forall e :: e in Tail(b, netname) ==> ValidEntry(e) && fo(e.key) != NameField
  {
    var parts := [Listed(KeyFor(NetnameField), Given(netname)), Listed(KeyFor(ConnectToField), b.connectTo),
                  Listed(KeyFor(AddressField), Given(b.address)), Listed(KeyFor(IfconfigField), b.ifconfig),
                  Listed(KeyFor(RouteField), b.route), b.other];
    ListedValid(fo, NetnameField, Given(netname));
    ListedValid(fo, ConnectToField, b.connectTo);
    ListedValid(fo, AddressField, Given(b.address));
    ListedValid(fo, IfconfigField, b.ifconfig);
    ListedValid(fo, RouteField, b.route);
    assert Tail(b, netname) == parts[0] + parts[1] + parts[2] + parts[3] + parts[4] + parts[5];
  }

  lemma ListedValid(fo: Classifier, f: Field, vs: seq<string>)
    requires Reads(fo) && f != OtherField && GoodValues(vs)
    ensures forall e :: e in Listed(KeyFor(f), vs) ==> ValidEntry(e) && fo(e.key) == f
  {}

  /** A written block reads back as one block, whatever was open before it and whatever follows. */
  lemma BlockReadsBack(fo: Classifier, names: seq<string>, b: Block, netname: string, rest: string)
    requires Reads(fo) && WellFormedBlock(fo, names, b) && GoodValues(Given(netname))
    ensures Blocks(fo, names, Lines(RenderAll(EntriesOf(b, netname)) + rest), []) ==
              Blocks(fo, names, Lines(rest), Canonical(names, EntriesOf(b, netname)))
  {
    EntriesOfShape(fo, names, b, netname);
    NamedEntriesReadBack(fo, names, EntriesOf(b, netname), rest);
  }

  lemma NameReadsBack(fo: Classifier, names: seq<string>, es: seq<Entry>, rest: string)
    requires Reads(fo) && es != [] && ValidEntry(es[0]) && fo(es[0].key) == NameField
    ensures Blocks(fo, names, Lines(RenderAll(es) + rest), []) ==
              Blocks(fo, names, Lines(RenderAll(es[1..]) + rest), [es[0].(key := CanonicalKey(names, es[0].key))])
  {
    var tail := RenderAll(es[1..]) + rest;
    assert RenderAll(es) + rest == RenderLine(es[0]) + "\n" + tail;
    EntryReadsBack(fo, names, es[0], tail, []);
    PrependNone(Blocks(fo, names, Lines(tail), [es[0].(key := CanonicalKey(names, es[0].key))]));
  }

  lemma NamedEntriesReadBack(fo: Classifier, names: seq<string>, es: seq<Entry>, rest: string)
    requires Reads(fo) && es != [] && ValidEntry(es[0]) && fo(es[0].key) == NameField
    requires forall e :: e in es[1..] ==> ValidEntry(e) && fo(e.key) != NameField
    ensures Blocks(fo, names, Lines(RenderAll(es) + rest), []) == Blocks(fo, names, Lines(rest), Canonical(names, es))
  {
    var e' := es[0].(key := CanonicalKey(names, es[0].key));
    NameReadsBack(fo, names, es, rest);
    EntriesReadBack(fo, names, es[1..], rest, [e']);
    CanonicalHead(names, es);
  }

  lemma CanonicalHead(names: seq<string>, es: seq<Entry>)
    requires es != []
    ensures Canonical(names, es) == [es[0].(key := CanonicalKey(names, es[0].key))] + Canonical(names, es[1..])
  {}

  function HostEntries(names: seq<string>, hosts: seq<Block>): seq<seq<Entry>> {
    if hosts == [] then [] else [Canonical(names, EntriesOf(hosts[0], ""))] + HostEntries(names, hosts[1..])
  }

  lemma {:induction false} HostsReadBack(fo: Classifier, names: seq<string>, hosts: seq<Block>, current: seq<Entry>)
    requires Reads(fo) && current != [] && forall b :: b in hosts ==> WellFormedBlock(fo, names, b)
    ensures Blocks(fo, names, Lines(RenderHosts(hosts)), current) == Ok([current] + HostEntries(names, hosts))
  {
    if hosts == [] {
      assert [current] + [] == [current];
    } else {
      var es := Canonical(names, EntriesOf(hosts[0], ""));
      var rest := RenderHosts(hosts[1..]);
      SeparatorReadsBack(fo, names, RenderAll(EntriesOf(hosts[0], "")) + rest, current);
      BlockReadsBack(fo, names, hosts[0], "", rest);
      HostsReadBack(fo, names, hosts[1..], es);
    }
  }

  // A block is what its entries say

  lemma {:induction false} ValuesCanonical(fo: Classifier, names: seq<string>, es: seq<Entry>, f: Field)
    requires Reads(fo)
    ensures Values(fo, Canonical(names, es), f) == Values(fo, es, f)
  {
    if es != [] {
      ValuesCanonical(fo, names, es[1..], f);
      CanonicalKeyFolds(names, es[0].key);
      assert Canonical(names, es)[1..] == Canonical(names, es[1..]);
    }
  }

  lemma {:induction false} OthersCanonical(fo: Classifier, names: seq<string>, es: seq<Entry>)
    requires Reads(fo)
    ensures Others(fo, Canonical(names, es)) == Canonical(names, Others(fo, es))
  {
    if es != [] {
      OthersCanonical(fo, names, es[1..]);
      CanonicalKeyFolds(names, es[0].key);
      assert Canonical(names, es)[1..] == Canonical(names, es[1..]);
      var head := if fo(es[0].key) == OtherField then [es[0]] else [];
      CanonicalConcat(names, head, Others(fo, es[1..]));
    }
  }

  lemma CanonicalConcat(names: seq<string>, a: seq<Entry>, b: seq<Entry>)
    ensures Canonical(names, a + b) == Canonical(names, a) + Canonical(names, b)
  {}

  lemma {:induction false} ListedValues(fo: Classifier, key: string, vs: seq<string>, f: Field)
    ensures Values(fo, Listed(key, vs), f) == if fo(key) == f then vs else []
    ensures fo(key) != OtherField ==> Others(fo, Listed(key, vs)) == []
  {
    if vs != [] {
      ListedValues(fo, key, vs[1..], f);
      assert Listed(key, vs)[1..] == Listed(key, vs[1..]);
    }
  }

  lemma {:induction false} OnlyOthers(fo: Classifier, es: seq<Entry>, f: Field)
    requires f != OtherField && forall e :: e in es ==> fo(e.key) == OtherField
    ensures Values(fo, es, f) == [] && Others(fo, es) == es
  {
    if es != [] {
      OnlyOthers(fo, es[1..], f);
    }
  }

  lemma ValuesOfSix(fo: Classifier, a: seq<Entry>, b: seq<Entry>, c: seq<Entry>, d: seq<Entry>, e: seq<Entry>,
                    g: seq<Entry>,
                    h: seq<Entry>, f: Field)
    ensures Values(fo, a + b + c + d + e + g + h, f) ==
              Values(fo, a, f) + Values(fo, b, f) + Values(fo, c, f) + Values(fo, d, f) + Values(fo, e, f)
              + Values(fo, g, f) + Values(fo, h, f)
    ensures Others(fo, a + b + c + d + e + g + h) ==
              Others(fo, a) + Others(fo, b) + Others(fo, c) + Others(fo, d) + Others(fo, e)
              + Others(fo, g) + Others(fo, h)
  {
    ValuesConcat(fo, a, b, f);
    ValuesConcat(fo, a + b, c, f);
    ValuesConcat(fo, a + b + c, d, f);
    ValuesConcat(fo, a + b + c + d, e, f);
    ValuesConcat(fo, a + b + c + d + e, g, f);
    ValuesConcat(fo, a + b + c + d + e + g, h, f);
    OthersConcat(fo, a, b);
    OthersConcat(fo, a + b, c);
    OthersConcat(fo, a + b + c, d);
    OthersConcat(fo, a + b + c + d, e);
    OthersConcat(fo, a + b + c + d + e, g);
    OthersConcat(fo, a + b + c + d + e + g, h);
  }

  /** What the written entries of a block say about a field. */
  function Said(b: Block, netname: string, f: Field): seq<string> {
    match f
    case NameField => [b.name]
    case AddressField => Given(b.address)
    case ConnectToField => b.connectTo
    case IfconfigField => b.ifconfig
    case RouteField => b.route
    case NetnameField => Given(netname)
    case OtherField => []
  }

  function When(c: bool, vs: seq<string>): seq<string> {
    if c then vs else []
  }

  lemma EntriesSayEach(fo: Classifier, b: Block, netname: string, keys: Field -> string, f: Field)
    requires f != OtherField && (forall e :: e in b.other ==> fo(e.key) == OtherField)
    requires KeysRead(fo, keys)
    ensures var es := EntriesWith(keys, b, netname);
            && Others(fo, es) == b.other
            && Values(fo, es, f) == When(f == NameField, [b.name]) + When(f == NetnameField, Given(netname))
               + When(f == ConnectToField, b.connectTo) + When(f == AddressField, Given(b.address))
               + When(f == IfconfigField, b.ifconfig) + When(f == RouteField, b.route)
  {
    ValuesOfSix(fo, Listed(keys(NameField), [b.name]), Listed(keys(NetnameField), Given(netname)),
                Listed(keys(ConnectToField), b.connectTo), Listed(keys(AddressField), Given(b.address)),
                Listed(keys(IfconfigField), b.ifconfig), Listed(keys(RouteField), b.route), b.other, f);
    ListedValues(fo, keys(NameField), [b.name], f);
    ListedValues(fo, keys(NetnameField), Given(netname), f);
    ListedValues(fo, keys(ConnectToField), b.connectTo, f);
    ListedValues(fo, keys(AddressField), Given(b.address), f);
    ListedValues(fo, keys(IfconfigField), b.ifconfig, f);
    ListedValues(fo, keys(RouteField), b.route, f);
    OnlyOthers(fo, b.other, f);
  }

  lemma SaidOnce(b: Block, netname: string, f: Field)
    requires f != OtherField
    ensures Said(b, netname, f) == When(f == NameField, [b.name]) + When(f == NetnameField, Given(netname))
               + When(f == ConnectToField, b.connectTo) + When(f == AddressField, Given(b.address))
               + When(f == IfconfigField, b.ifconfig) + When(f == RouteField, b.route)
  {}

  lemma EntriesSay(fo: Classifier, b: Block, netname: string, f: Field)
    requires KeysRead(fo, KeyFor) && f != OtherField && forall e :: e in b.other ==> fo(e.key) == OtherField
    ensures Values(fo, EntriesOf(b, netname), f) == Said(b, netname, f)
    ensures Others(fo, EntriesOf(b, netname)) == b.other
  {
    EntriesSayEach(fo, b, netname, KeyFor, f);
    SaidOnce(b, netname, f);
  }

  lemma BlockSaysItself(fo: Classifier, names: seq<string>, b: Block, netname: string)
    requires Reads(fo) && WellFormedBlock(fo, names, b)
    ensures BlockOf(fo, Canonical(names, EntriesOf(b, netname))) == b
    ensures Values(fo, Canonical(names, EntriesOf(b, netname)), NetnameField) == Given(netname)
  {
    var es := EntriesOf(b, netname);
    forall f | f != OtherField ensures Values(fo, Canonical(names, es), f) == Said(b, netname, f) {
      ValuesCanonical(fo, names, es, f);
      EntriesSay(fo, b, netname, f);
    }
    EntriesSay(fo, b, netname, NameField);
    OthersCanonical(fo, names, es);
    assert Canonical(names, b.other) == b.other;
  }

  lemma ParseHostsCons(fo: Classifier, es: seq<Entry>, rest: seq<seq<Entry>>, b: Block)
    requires BlockOf(fo, es) == b && b.name != ""
    ensures ParseHosts(fo, [es] + rest) == Prepend([b], ParseHosts(fo, rest))
  {
    assert ([es] + rest)[1..] == rest;
  }

  lemma {:induction false} HostsSayThemselves(fo: Classifier, names: seq<string>, hosts: seq<Block>)
    requires Reads(fo) && forall b :: b in hosts ==> WellFormedBlock(fo, names, b)
    ensures ParseHosts(fo, HostEntries(names, hosts)) == Ok(hosts)
  {
    if hosts != [] {
      BlockSaysItself(fo, names, hosts[0], "");
      ParseHostsCons(fo, Canonical(names, EntriesOf(hosts[0], "")), HostEntries(names, hosts[1..]), hosts[0]);
      HostsSayThemselves(fo, names, hosts[1..]);
      assert hosts == [hosts[0]] + hosts[1..];
    }
  }

  lemma RenderedFileParses(fo: Classifier, names: seq<string>, f: File)
    requires Reads(fo) && WellFormedFile(fo, names, f)
    ensures ParseInvitation(fo, names, RenderFile(f)) == Ok(f)
  {
    var first := Canonical(names, EntriesOf(f.invitee, f.netname));
    BlockReadsBack(fo, names, f.invitee, f.netname, RenderHosts(f.hosts));
    HostsReadBack(fo, names, f.hosts, first);
    BlockSaysItself(fo, names, f.invitee, f.netname);
    HostsSayThemselves(fo, names, f.hosts);
    var bs := [first] + HostEntries(names, f.hosts);
    assert bs[1..] == HostEntries(names, f.hosts);
  }

  // The program's own classification

  lemma FieldOfReads()
    ensures Reads(FieldOf)
  {
    forall f: Field | f != OtherField ensures FieldOf(KeyFor(f)) == f && ValidKey(KeyFor(f)) {
      KeysDiffer(f);
    }
  }

  lemma KeysDiffer(f: Field)
    requires f != OtherField
    ensures FieldOf(KeyFor(f)) == f && ValidKey(KeyFor(f))
  {
    var n, a, c := Lower("Name"), Lower("Address"), Lower("ConnectTo");
    var i, r, t := Lower("Ifconfig"), Lower("Route"), Lower("Netname");
    assert |n| == 4 && |a| == 7 && |c| == 9 && |i| == 8 && |r| == 5 && |t| == 7 && a[0] == 'a' && t[0] == 'n';
  }

  // What each kind of line does

  /** One more entry of a block goes where its key says, in any spelling; the last name and the last address win. */
  lemma BlockTakesEntry(es: seq<Entry>, e: Entry)
    ensures var b, b' := BlockOf(FieldOf, es), BlockOf(FieldOf, es + [e]);
            && (EqualFold(e.key, "Name") ==> b' == b.(name := e.value))
            && (EqualFold(e.key, "Address") ==> b' == b.(address := e.value))
            && (EqualFold(e.key, "ConnectTo") ==> b' == b.(connectTo := b.connectTo + [e.value]))
            && (EqualFold(e.key, "Ifconfig") ==> b' == b.(ifconfig := b.ifconfig + [e.value]))
            && (EqualFold(e.key, "Route") ==> b' == b.(route := b.route + [e.value]))
            && (EqualFold(e.key, "Netname") ==> b' == b)
            && (FieldOf(e.key) == OtherField ==> b' == b.(other := b.other + [e]))
  {
    BlockOfOneMore(FieldOf, es, e);
    FoldsAreRead(e.key);
    NextBlock(FieldOf, es, e);
  }

  lemma FoldsAreRead(key: string)
    ensures EqualFold(key, "Name") ==> FieldOf(key) == NameField
    ensures EqualFold(key, "Address") ==> FieldOf(key) == AddressField
    ensures EqualFold(key, "ConnectTo") ==> FieldOf(key) == ConnectToField
    ensures EqualFold(key, "Ifconfig") ==> FieldOf(key) == IfconfigField
    ensures EqualFold(key, "Route") ==> FieldOf(key) == RouteField
    ensures EqualFold(key, "Netname") ==> FieldOf(key) == NetnameField
  {
    FieldOfReads();
    assert forall f: Field :: f != OtherField && EqualFold(key, KeyFor(f)) ==> FieldOf(key) == f;
    assert KeyFor(NameField) == "Name" && KeyFor(AddressField) == "Address" && KeyFor(ConnectToField) == "ConnectTo";
    assert KeyFor(IfconfigField) == "Ifconfig" && KeyFor(RouteField) == "Route" && KeyFor(NetnameField) == "Netname";
  }

  lemma NextBlock(fo: Classifier, es: seq<Entry>, e: Entry)
    ensures var b, b' := BlockOf(fo, es), BlockOf(fo, es + [e]);
            b' == match fo(e.key)
                  case NameField => b.(name := e.value)
                  case AddressField => b.(address := e.value)
                  case ConnectToField => b.(connectTo := b.connectTo + [e.value])
                  case IfconfigField => b.(ifconfig := b.ifconfig + [e.value])
                  case RouteField => b.(route := b.route + [e.value])
                  case NetnameField => b
                  case OtherField => b.(other := b.other + [e])
  {
    BlockOfOneMore(fo, es, e);
  }

  /** The network is named by the first Netname of the first block. */
  lemma FirstNetnameWins(a: seq<Entry>, e: Entry, b: seq<Entry>, rest: seq<seq<Entry>>)
    requires EqualFold(e.key, "Netname") && forall x :: x in a ==> FieldOf(x.key) != NetnameField
    ensures var r := Assemble(FieldOf, [a + ([e] + b)] + rest); r.Ok? ==> r.value.netname == e.value
  {
    var es := a + ([e] + b);
    FoldsAreRead(e.key);
    NoneOfThem(FieldOf, a, NetnameField);
    ValuesConcat(FieldOf, a, [e] + b, NetnameField);
    assert ([e] + b)[0] == e && ([es] + rest)[0] == es;
  }

  lemma {:induction false} NoneOfThem(fo: Classifier, es: seq<Entry>, f: Field)
    requires forall x :: x in es ==> fo(x.key) != f
    ensures Values(fo, es, f) == []
  {
    if es != [] { NoneOfThem(fo, es[1..], f); }
  }

  /** Any comment ends the open block; a blank line does not. */
  lemma CommentEndsBlock(fo: Classifier, names: seq<string>, line: string, rest: string, current: seq<Entry>)
    requires '\n' !in line
    ensures Trim(DropCr(line)) == "" ==>
              Blocks(fo, names, Lines(line + "\n" + rest), current) == Blocks(fo, names, Lines(rest), current)
    ensures Trim(DropCr(line)) != "" && Trim(DropCr(line))[0] == '#' ==>
              Blocks(fo, names, Lines(line + "\n" + rest), current) ==
                Prepend(Flush(current), Blocks(fo, names, Lines(rest), []))
  {
    LinesCons(line, rest);
    assert Lines(line + "\n" + rest)[1..] == Lines(rest);
  }

  /** A line that says a name opens a block, any other entry goes to the open one, and a bad line is an error. */
  lemma EntryInBlock(fo: Classifier, names: seq<string>, line: string, rest: string, current: seq<Entry>)
    requires '\n' !in line && Trim(DropCr(line)) != "" && Trim(DropCr(line))[0] != '#'
    ensures var e, all := ParseLine(names, Trim(DropCr(line))), Blocks(fo, names, Lines(line + "\n" + rest), current);
            && (e.Err? ==> all == Err(e.error))
            && (e.Ok? && fo(e.value.key) == NameField ==>
                  all == Prepend(Flush(current), Blocks(fo, names, Lines(rest), [e.value])))
            && (e.Ok? && fo(e.value.key) != NameField ==>
                  all == Blocks(fo, names, Lines(rest), current + [e.value]))
  {
    TrimLaw(DropCr(line));
    SingleLine(names, Trim(DropCr(line)));
    LinesCons(line, rest);
    assert Lines(line + "\n" + rest)[1..] == Lines(rest);
  }

  /** The place of a field in a written block. */
  function Rank(f: Field): nat {
    match f
    case NameField => 0
    case NetnameField => 1
    case ConnectToField => 2
    case AddressField => 3
    case IfconfigField => 4
    case RouteField => 5
    case OtherField => 6
  }

  ghost predicate Ranked(fo: Classifier, es: seq<Entry>, hi: nat) {
    && (forall i :: 0 <= i < |es| ==> Rank(fo(es[i].key)) <= hi)
    && forall i, j :: 0 <= i < j < |es| ==> Rank(fo(es[i].key)) <= Rank(fo(es[j].key))
  }

  lemma RankedMore(fo: Classifier, es: seq<Entry>, hi: nat, more: seq<Entry>, f: Field)
    requires Ranked(fo, es, hi) && hi <= Rank(f) && forall e :: e in more ==> fo(e.key) == f
    ensures Ranked(fo, es + more, Rank(f))
  {
    assert forall i :: 0 <= i < |more| ==> more[i] in more;
  }

  lemma ListedRanked(fo: Classifier, es: seq<Entry>, hi: nat, f: Field, vs: seq<string>)
    requires Reads(fo) && f != OtherField && Ranked(fo, es, hi) && hi <= Rank(f)
    ensures Ranked(fo, es + Listed(KeyFor(f), vs), Rank(f))
  {
    RankedMore(fo, es, hi, Listed(KeyFor(f), vs), f);
  }

  lemma HeadRanked(fo: Classifier, b: Block, netname: string) returns (es: seq<Entry>)
    requires Reads(fo)
    ensures es == Listed(KeyFor(NameField), [b.name]) + Listed(KeyFor(NetnameField), Given(netname))
                  + Listed(KeyFor(ConnectToField), b.connectTo)
    ensures Ranked(fo, es, 2)
  {
    es := Listed(KeyFor(NameField), [b.name]);
    ListedRanked(fo, [], 0, NameField, [b.name]);
    assert [] + es == es;
    ListedRanked(fo, es, 0, NetnameField, Given(netname));
    es := es + Listed(KeyFor(NetnameField), Given(netname));
    ListedRanked(fo, es, 1, ConnectToField, b.connectTo);
    es := es + Listed(KeyFor(ConnectToField), b.connectTo);
  }

  lemma TailRanked(fo: Classifier, b: Block, head: seq<Entry>) returns (es: seq<Entry>)
    requires Reads(fo) && Ranked(fo, head, 2)
    ensures es == head + Listed(KeyFor(AddressField), Given(b.address)) + Listed(KeyFor(IfconfigField), b.ifconfig)
                  + Listed(KeyFor(RouteField), b.route)
    ensures Ranked(fo, es, 5)
  {
    ListedRanked(fo, head, 2, AddressField, Given(b.address));
    es := head + Listed(KeyFor(AddressField), Given(b.address));
    ListedRanked(fo, es, 3, IfconfigField, b.ifconfig);
    es := es + Listed(KeyFor(IfconfigField), b.ifconfig);
    ListedRanked(fo, es, 4, RouteField, b.route);
    es := es + Listed(KeyFor(RouteField), b.route);
  }

  /** A block is written in a fixed order: name, network, connections, address, interface, routes, other entries. */
  lemma WrittenInOrder(fo: Classifier, names: seq<string>, b: Block, netname: string)
    requires Reads(fo) && WellFormedBlock(fo, names, b)
    ensures Ranked(fo, EntriesOf(b, netname), 6)
  {
    var head := HeadRanked(fo, b, netname);
    var es := TailRanked(fo, b, head);
    RankedMore(fo, es, 5, b.other, OtherField);
  }

  /** A file is accepted exactly when it has a block and every block has a name; the other blocks are its hosts. */
  lemma AssembledIff(fo: Classifier, bs: seq<seq<Entry>>)
    ensures Assemble(fo, bs).Ok? <==> bs != [] && forall i :: 0 <= i < |bs| ==> BlockOf(fo, bs[i]).name != ""
    ensures Assemble(fo, bs).Ok? ==>
              var f := Assemble(fo, bs).value;
              && f.invitee == BlockOf(fo, bs[0]) && |f.hosts| == |bs| - 1
              && forall i :: 1 <= i < |bs| ==> f.hosts[i - 1] == BlockOf(fo, bs[i])
  {
    if bs != [] {
      HostsIff(fo, bs[1..]);
      assert forall i :: 1 <= i < |bs| ==> bs[i] == bs[1..][i - 1];
    }
  }

  lemma {:induction false} HostsIff(fo: Classifier, bs: seq<seq<Entry>>)
    ensures ParseHosts(fo, bs).Ok? <==> forall i :: 0 <= i < |bs| ==> BlockOf(fo, bs[i]).name != ""
    ensures ParseHosts(fo, bs).Ok? ==>
              && |ParseHosts(fo, bs).value| == |bs|
              && forall i :: 0 <= i < |bs| ==> ParseHosts(fo, bs).value[i] == BlockOf(fo, bs[i])
  {
    if bs != [] {
      HostsIff(fo, bs[1..]);
      assert forall i :: 1 <= i < |bs| ==> bs[i] == bs[1..][i - 1];
      assert forall i :: 0 <= i < |bs[1..]| ==> bs[1..][i] == bs[i + 1];
    }
  }

  // The limit on lines

  predicate FileFits(limit: nat, f: File) {
    && LinesFit(limit, EntriesOf(f.invitee, f.netname))
    && HostsFit(limit, f.hosts)
  }

  predicate HostsFit(limit: nat, hosts: seq<Block>) {
    forall i :: 0 <= i < |hosts| ==> HostFits(limit, hosts[i])
  }

  predicate HostFits(limit: nat, b: Block) {
    |SEPARATOR| <= limit && LinesFit(limit, EntriesOf(b, ""))
  }

  lemma BlockEntriesValid(fo: Classifier, names: seq<string>, b: Block, netname: string)
    requires Reads(fo) && WellFormedBlock(fo, names, b) && GoodValues(Given(netname))
    ensures forall e :: e in EntriesOf(b, netname) ==> ValidEntry(e)
  {
    EntriesOfShape(fo, names, b, netname);
    var es := EntriesOf(b, netname);
    assert es == [es[0]] + Tail(b, netname);
  }

  lemma HostsFitCons(limit: nat, hosts: seq<Block>)
    requires hosts != []
    ensures HostsFit(limit, hosts) <==> HostFits(limit, hosts[0]) && HostsFit(limit, hosts[1..])
  {
    assert forall i :: 0 <= i < |hosts[1..]| ==> hosts[1..][i] == hosts[i + 1];
    assert forall i :: 1 <= i < |hosts| ==> hosts[i] == hosts[1..][i - 1];
  }

  lemma RenderedHostFits(limit: nat, es: seq<Entry>, rest: string)
    requires forall e :: e in es ==> ValidEntry(e)
    ensures Fits(limit, SEPARATOR + "\n" + (RenderAll(es) + rest)) <==>
              |SEPARATOR| <= limit && LinesFit(limit, es) && Fits(limit, rest)
  {
    RenderedFits(limit, es, rest);
    FitsCons(limit, SEPARATOR, RenderAll(es) + rest);
  }

  lemma {:induction false} RenderedHostsFit(limit: nat, fo: Classifier, names: seq<string>, hosts: seq<Block>)
    requires Reads(fo) && forall b :: b in hosts ==> WellFormedBlock(fo, names, b)
    ensures Fits(limit, RenderHosts(hosts)) <==> HostsFit(limit, hosts)
  {
    if hosts != [] {
      var es, rest := EntriesOf(hosts[0], ""), RenderHosts(hosts[1..]);
      RenderedHostsFit(limit, fo, names, hosts[1..]);
      BlockEntriesValid(fo, names, hosts[0], "");
      RenderedHostFits(limit, es, rest);
      HostsFitCons(limit, hosts);
    }
  }

  lemma RenderedFileFits(limit: nat, names: seq<string>, f: File)
    requires WellFormedFile(FieldOf, names, f)
    ensures Fits(limit, RenderFile(f)) <==> FileFits(limit, f)
  {
    FieldOfReads();
    BlockEntriesValid(FieldOf, names, f.invitee, f.netname);
    RenderedFits(limit, EntriesOf(f.invitee, f.netname), RenderHosts(f.hosts));
    RenderedHostsFit(limit, FieldOf, names, f.hosts);
  }

  lemma WellFormedIffParsesBack(names: seq<string>, f: File)
    ensures ParseInvitation(FieldOf, names, RenderFile(f)) == Ok(f) <==> WellFormedFile(FieldOf, names, f)
  {
    FieldOfReads();
    if WellFormedFile(FieldOf, names, f) {
      RenderedFileParses(FieldOf, names, f);
    }
    if ParseInvitation(FieldOf, names, RenderFile(f)) == Ok(f) {
      ParsedFileWellFormed(FieldOf, names, RenderFile(f));
    }
  }

  /** A file renders to a text that parses back to it exactly when it is well formed and every line of it fits. */
  lemma RoundTripIffWellFormedFile(limit: nat, names: seq<string>, f: File)
    ensures InvitationWithin(limit, FieldOf, names, RenderFile(f)) == Ok(f) <==>
              WellFormedFile(FieldOf, names, f) && FileFits(limit, f)
  {
    InvitationWithinIff(limit, FieldOf, names, RenderFile(f));
    WellFormedIffParsesBack(names, f);
    if WellFormedFile(FieldOf, names, f) {
      RenderedFileFits(limit, names, f);
    }
  }

  /**
  Normal form: for every accepted text, the rendering of what was parsed parses to the same file, exactly when every
  rendered line fits.
  */
  lemma InvitationNormalForm(limit: nat, names: seq<string>, text: string)
    requires InvitationWithin(limit, FieldOf, names, text).Ok?
    ensures var f := InvitationWithin(limit, FieldOf, names, text).value;
            InvitationWithin(limit, FieldOf, names, RenderFile(f)) == Ok(f) <==> FileFits(limit, f)
  {
    InvitationWithinIff(limit, FieldOf, names, text);
    ParsedFileWellFormed(FieldOf, names, text);
    RoundTripIffWellFormedFile(limit, names, ParseInvitation(FieldOf, names, text).value);
  }
}
