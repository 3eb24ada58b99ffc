/**
The plugin handshake: the pipe-delimited line a plugin writes to its standard output, the list
of versions the host passes in the environment, and how the two sides agree on a version.
*/
module Negotiation {
  import opened Common
  import opened Text

  const CORE_PROTOCOL_VERSION: u32 := 1

  datatype Protocol = Grpc | NetRpc

  function ProtocolText(p: Protocol): string {
    match p
    case Grpc => "grpc"
    case NetRpc => "netrpc"
  }

  datatype Error =
    | TooFewFields(count: nat)
    | InvalidCoreVersion
    | InvalidAppVersion
    | UnknownProtocol(text: string)
    | CoreVersionMismatch(host: u32, plugin: u32)
    | NoCompatibleVersion(hosts: seq<u32>, plugin: u32)

  function ParseProtocol(s: string): Result<Protocol, Error> {
    if s == "grpc" then Ok(Grpc) else if s == "netrpc" then Ok(NetRpc) else Err(UnknownProtocol(s))
  }

  datatype Line = Line(
    coreVersion: u32,
    appVersion: u32,
    network: string,
    address: string,
    protocol: Protocol,
    serverCert: Option<string>,
    muxSupported: bool)

  // ---------------------------------------------------------------- the line

  function ParseFields(parts: seq<string>): Result<Line, Error> {
    if |parts| < 5 then Err(TooFewFields(|parts|))
    else
      match (ParseU32(parts[0]), ParseU32(parts[1]), ParseProtocol(parts[4]))
      case (None, _, _) => Err(InvalidCoreVersion)
      case (_, None, _) => Err(InvalidAppVersion)
      case (_, _, Err(e)) => Err(e)
      case (Some(core), Some(app), Ok(protocol)) =>
        Ok(Line(core, app, parts[2], parts[3], protocol,
                if |parts| > 5 && parts[5] != "" then Some(parts[5]) else None,
                |parts| > 6 && parts[6] == "true"))
  }

  function Parse(line: string): Result<Line, Error> { ParseFields(Split(Trim(line), '|')) }

  function CertText(l: Line): string { if l.serverCert.Some? then l.serverCert.value else "" }

  function BaseFields(l: Line): seq<string> {
    [Decimal(l.coreVersion), Decimal(l.appVersion), l.network, l.address, ProtocolText(l.protocol)]
  }

  /** The fields that are written out: as many as the line needs. */
  function Fields(l: Line): seq<string> {
    if l.muxSupported then BaseFields(l) + [CertText(l), "true"]
    else if CertText(l) != "" then BaseFields(l) + [CertText(l)]
    else BaseFields(l)
  }

  function Encode(l: Line): string { Join(Fields(l), '|') }

  predicate NoPipes(l: Line) { '|' !in l.network && '|' !in l.address && '|' !in CertText(l) }

  /** The certificate that arrives: white space at the very end of the line is trimmed, and an empty one is none. */
  function Arriving(l: Line): Option<string> {
    var cert := if l.muxSupported then CertText(l) else TrimEnd(CertText(l));
    if cert == "" then None else Some(cert)
  }

  /** The fields that are left when the line has been trimmed. */
  function Delivered(l: Line): seq<string> {
    if l.muxSupported then BaseFields(l) + [CertText(l), "true"]
    else if CertText(l) != "" then BaseFields(l) + [TrimEnd(CertText(l))]
    else BaseFields(l)
  }

  lemma JoinFront(parts: seq<string>, sep: char)
    requires parts != [] && parts[0] != ""
    ensures Join(parts, sep) != "" && Join(parts, sep)[0] == parts[0][0]
  {
  }

  /** A line starts with a digit, and only the end of its last field is trimmed. */
  lemma TrimEncoded(l: Line)
    ensures Trim(Encode(l)) == Join(Delivered(l), '|')
  {
    var base := BaseFields(l);
    var e := Encode(l);
    JoinFront(Fields(l), '|');
    assert IsDigit(Decimal(l.coreVersion)[0]);
    assert TrimStart(e) == e;
    if l.muxSupported {
      assert base + [CertText(l), "true"] == (base + [CertText(l)]) + ["true"];
      JoinAppend(base + [CertText(l)], "true", '|');
      TrimEndAfter(Join(base + [CertText(l)], '|') + ['|'], "true");
    } else if CertText(l) != "" {
      JoinAppend(base, CertText(l), '|');
      JoinAppend(base, TrimEnd(CertText(l)), '|');
      TrimEndAfter(Join(base, '|') + ['|'], CertText(l));
    } else {
      assert base == base[..4] + [ProtocolText(l.protocol)];
      JoinAppend(base[..4], ProtocolText(l.protocol), '|');
      TrimEndAfter(Join(base[..4], '|') + ['|'], ProtocolText(l.protocol));
    }
  }

  lemma ProtocolRoundTrip(p: Protocol)
    ensures ParseProtocol(ProtocolText(p)) == Ok(p) && '|' !in ProtocolText(p)
  {
  }

  lemma {:induction false} TrimEndIsPrefix(s: string)
    ensures TrimEnd(s) <= s && (TrimEnd(s) == s <==> s == "" || !IsWhitespace(s[|s| - 1]))
  {
    if s != "" && IsWhitespace(s[|s| - 1]) {
      TrimEndIsPrefix(s[..|s| - 1]);
    }
  }

  lemma DeliveredWithoutPipes(l: Line)
    requires NoPipes(l)
    ensures forall f <- Delivered(l) :: '|' !in f
  {
    DecimalIsPlain(l.coreVersion, '|');
    DecimalIsPlain(l.appVersion, '|');
    ProtocolRoundTrip(l.protocol);
    TrimEndIsPrefix(CertText(l));
    assert '|' !in "true";
  }

  lemma ParseDelivered(l: Line)
    ensures ParseFields(Delivered(l)) == Ok(l.(serverCert := Arriving(l)))
  {
    ProtocolRoundTrip(l.protocol);
    ParseUndoesDecimal(l.coreVersion);
    ParseUndoesDecimal(l.appVersion);
    assert TrimEnd("") == "";
  }

  /** What the other side makes of any line whose texts contain no pipe. */
  lemma ParseOfEncode(l: Line)
    requires NoPipes(l)
    ensures Parse(Encode(l)) == Ok(l.(serverCert := Arriving(l)))
  {
    TrimEncoded(l);
    DeliveredWithoutPipes(l);
    SplitUndoesJoin(Delivered(l), '|');
    ParseDelivered(l);
  }

  lemma ParsedTextsHaveNoPipes(line: string)
    ensures Parse(line).Ok? ==> NoPipes(Parse(line).value)
  {
    PartsHaveNoSeparator(Trim(line), '|');
  }

  /**
  The lines that survive the wire: no pipe in a text, and a certificate, if any, that is not
  empty and does not end in white space when it is the last field.
  */
  predicate Survives(l: Line) {
    && NoPipes(l)
    && (l.serverCert.Some? ==>
          && l.serverCert.value != ""
          && (l.muxSupported || !IsWhitespace(l.serverCert.value[|l.serverCert.value| - 1])))
  }

  /** MAIN: exactly which lines the host reads back as the plugin meant them. */
  lemma ParseUndoesEncode(l: Line)
    ensures Parse(Encode(l)) == Ok(l) <==> Survives(l)
  {
    if NoPipes(l) {
      ParseOfEncode(l);
      TrimEndIsPrefix(CertText(l));
    } else {
      ParsedTextsHaveNoPipes(Encode(l));
    }
  }

  /** The fields of a line as another implementation may write it, with both optional fields and any number more. */
  function LongFields(l: Line, cert: string, flag: string, more: seq<string>): seq<string> {
    BaseFields(l) + ([cert, flag] + more)
  }

  /** Exactly how the optional fields are read: an empty certificate is none, and only "true" turns multiplexing on. */
  lemma LongLineIsRead(l: Line, cert: string, flag: string, more: seq<string>)
    ensures ParseFields(LongFields(l, cert, flag, more)) ==
            Ok(l.(serverCert := if cert == "" then None else Some(cert), muxSupported := flag == "true"))
  {
    ProtocolRoundTrip(l.protocol);
    ParseUndoesDecimal(l.coreVersion);
    ParseUndoesDecimal(l.appVersion);
  }

  /** MAIN: exactly which lines are refused: fewer than five fields, a version that is no 32-bit number, or another protocol. */
  lemma RefusedExactly(parts: seq<string>)
    ensures ParseFields(parts).Err? <==>
      || |parts| < 5 || ParseU32(parts[0]).None? || ParseU32(parts[1]).None?
      || (parts[4] != "grpc" && parts[4] != "netrpc")
    ensures ParseFields(parts).Ok? ==>
      var l := ParseFields(parts).value;
      && Some(l.coreVersion) == ParseU32(parts[0]) && Some(l.appVersion) == ParseU32(parts[1])
      && l.network == parts[2] && l.address == parts[3] && ProtocolText(l.protocol) == parts[4]
  {
  }

  // ---------------------------------------------------------------- the line among the plugin's output

  /** `read_line`: up to and with the first line break. */
  function ReadLine(printed: string): string {
    if printed == "" then ""
    else if printed[0] == '\n' then [printed[0]]
    else [printed[0]] + ReadLine(printed[1..])
  }

  lemma {:induction false} ReadLineStops(line: string, more: string)
    requires '\n' !in line
    ensures ReadLine(line + (['\n'] + more)) == line + ['\n']
  {
    var printed := line + (['\n'] + more);
    if line == "" {
      assert printed == ['\n'] + more;
    } else {
      assert printed[0] == line[0] && printed[1..] == line[1..] + (['\n'] + more);
      ReadLineStops(line[1..], more);
      assert line == [line[0]] + line[1..];
    }
  }

  lemma {:induction false} ReadLineIsPrefix(printed: string)
    ensures ReadLine(printed) <= printed
  {
    if printed != "" && printed[0] != '\n' {
      ReadLineIsPrefix(printed[1..]);
      assert printed == [printed[0]] + printed[1..];
    }
  }

  /** Once a line break has been printed, what follows it is not read. */
  lemma {:induction false} ReadLineEnds(before: string, more: string)
    requires '\n' in before
    ensures ReadLine(before + more) == ReadLine(before)
  {
    assert (before + more)[0] == before[0];
    if before[0] != '\n' {
      assert (before + more)[1..] == before[1..] + more;
      ReadLineEnds(before[1..], more);
    }
  }

  lemma {:induction false} ReadLineIsOneLine(printed: string)
    requires '\n' in printed
    ensures ReadLine(printed) != "" && ReadLine(printed)[|ReadLine(printed)| - 1] == '\n'
    ensures '\n' !in ReadLine(printed)[..|ReadLine(printed)| - 1]
  {
    if printed[0] != '\n' {
      ReadLineIsOneLine(printed[1..]);
      var rest := ReadLine(printed[1..]);
      assert ([printed[0]] + rest)[..|rest|] == [printed[0]] + rest[..|rest| - 1];
    }
  }

  predicate OneLine(l: Line) { '\n' !in l.network && '\n' !in l.address && '\n' !in CertText(l) }

  lemma FieldsOnOneLine(l: Line)
    requires OneLine(l)
    ensures '\n' !in Encode(l)
  {
    DecimalIsPlain(l.coreVersion, '\n');
    DecimalIsPlain(l.appVersion, '\n');
    assert '\n' !in ProtocolText(l.protocol) && '\n' !in "true";
    JoinWithout(Fields(l), '|', '\n');
  }

  /** What is read from one line has no line break in it. */
  lemma ParsedTextsOnOneLine(line: string)
    requires line != "" && line[|line| - 1] == '\n' && '\n' !in line[..|line| - 1]
    ensures Parse(line).Ok? ==> OneLine(Parse(line).value)
  {
    TrimmedLine(line[..|line| - 1]);
    assert line == line[..|line| - 1] + ['\n'];
    PartsWithin(Trim(line), '|', '\n');
  }

  /** Everything the plugin prints: perhaps something, its line, and whatever comes after. */
  function Printed(before: string, l: Line, more: string): string { before + (Encode(l) + (['\n'] + more)) }

  /** What stands on the line before it is white space, or zeros and a sign that leave the first number as it is. */
  predicate Leads(before: string, core: u32) { ParseU32(TrimStart(before) + Decimal(core)) == Some(core) }

  lemma EncodeStartsWithDigit(l: Line)
    ensures Encode(l) != "" && !IsWhitespace(Encode(l)[0])
  {
    JoinFront(Fields(l), '|');
    assert IsDigit(Decimal(l.coreVersion)[0]);
  }

  /** The line that is read, trimmed: what comes before has become part of the first field. */
  lemma {:induction false} TrimmedGlue(before: string, l: Line)
    ensures Trim(before + Encode(l) + ['\n']) == Join(Delivered(l)[0 := TrimStart(before) + Decimal(l.coreVersion)], '|')
  {
    EncodeStartsWithDigit(l);
    assert (Encode(l) + ['\n'])[0] == Encode(l)[0];
    assert before + Encode(l) + ['\n'] == before + (Encode(l) + ['\n']);
    TrimGlued(before, Encode(l) + ['\n']);
    TrimDropsLineBreak(Encode(l));
    TrimEncoded(l);
    JoinGlued(TrimStart(before), Delivered(l), '|');
  }

  lemma {:induction false} TrimStartWithout(s: string, c: char)
    requires c !in s
    ensures c !in TrimStart(s)
  {
    if s != "" && IsWhitespace(s[0]) {
      TrimStartWithout(s[1..], c);
    }
  }

  /** The fields that arrive when something stands before the first. */
  lemma FieldsGlued(first: string, l: Line, fields: seq<string>)
    requires fields == Delivered(l)[0 := first]
    ensures ParseFields(fields) ==
      if ParseU32(first).None? then Err(InvalidCoreVersion)
      else Ok(l.(coreVersion := ParseU32(first).value, serverCert := Arriving(l)))
  {
    ParseDelivered(l);
  }

  lemma {:induction false} GluedFieldsArePlain(before: string, l: Line, first: string)
    requires NoPipes(l) && '|' !in before && first == TrimStart(before) + Decimal(l.coreVersion)
    ensures forall f <- Delivered(l)[0 := first] :: '|' !in f
  {
    DeliveredWithoutPipes(l);
    TrimStartWithout(before, '|');
    DecimalIsPlain(l.coreVersion, '|');
  }

  lemma {:induction false} ParseGlued(before: string, l: Line, first: string)
    requires NoPipes(l) && '|' !in before && first == TrimStart(before) + Decimal(l.coreVersion)
    ensures Parse(before + Encode(l) + ['\n']) ==
      if ParseU32(first).None? then Err(InvalidCoreVersion)
      else Ok(l.(coreVersion := ParseU32(first).value, serverCert := Arriving(l)))
  {
    var fields := Delivered(l)[0 := first];
    TrimmedGlue(before, l);
    GluedFieldsArePlain(before, l, first);
    SplitUndoesJoin(fields, '|');
    FieldsGlued(first, l, fields);
  }

  /** Exactly when a line without breaks is read back, although something stands before it. */
  lemma GluedLine(before: string, l: Line)
    requires '|' !in before
    ensures Parse(before + Encode(l) + ['\n']) == Ok(l) <==> Survives(l) && Leads(before, l.coreVersion)
  {
    if NoPipes(l) {
      ParseGlued(before, l, TrimStart(before) + Decimal(l.coreVersion));
      ParseOfEncode(l);
      ParseUndoesEncode(l);
    } else {
      ParsedTextsHaveNoPipes(before + Encode(l) + ['\n']);
    }
  }

  /** Whatever complete line the plugin prints first is read instead of its negotiation line. */
  lemma EarlierLineIsRead(before: string, l: Line, more: string)
    requires '\n' in before
    ensures ReadLine(Printed(before, l, more)) == ReadLine(before)
  {
    ReadLineEnds(before, Encode(l) + (['\n'] + more));
  }

  lemma LineIsRead(before: string, l: Line, more: string)
    requires '\n' !in before && OneLine(l)
    ensures ReadLine(Printed(before, l, more)) == before + Encode(l) + ['\n']
  {
    FieldsOnOneLine(l);
    assert Printed(before, l, more) == (before + Encode(l)) + (['\n'] + more);
    ReadLineStops(before + Encode(l), more);
  }

  /**
  MAIN: exactly which lines the host reads back from the plugin's output, where no line break and no pipe has
  been printed before: those that survive, have no line break in a text and are led by nothing that matters.
  */
  lemma HostReadsTheLine(before: string, l: Line, more: string)
    requires '\n' !in before && '|' !in before
    ensures Parse(ReadLine(Printed(before, l, more))) == Ok(l) <==> Survives(l) && OneLine(l) && Leads(before, l.coreVersion)
  {
    if OneLine(l) {
      LineIsRead(before, l, more);
      GluedLine(before, l);
    } else {
      assert Printed(before, l, more)[|before| + |Encode(l)|] == '\n';
      ReadLineIsOneLine(Printed(before, l, more));
      ParsedTextsOnOneLine(ReadLine(Printed(before, l, more)));
    }
  }

  lemma {:induction false} WhiteIsTrimmed(s: string)
    requires forall c <- s :: IsWhitespace(c)
    ensures TrimStart(s) == ""
  {
    if s != "" {
      WhiteIsTrimmed(s[1..]);
    }
  }

  /** White space before the line does no harm. */
  lemma WhiteLeads(before: string, core: u32)
    requires forall c <- before :: IsWhitespace(c)
    ensures Leads(before, core)
  {
    WhiteIsTrimmed(before);
    ParseUndoesDecimal(core);
    assert "" + Decimal(core) == Decimal(core);
  }

  // ---------------------------------------------------------------- the version list

  function Decimals(vs: seq<u32>): seq<string> {
    if vs == [] then [] else [Decimal(vs[0])] + Decimals(vs[1..])
  }

  function EncodeVersionList(vs: seq<u32>): string { Join(Decimals(vs), ',') }

  /** Items that are no numbers are dropped. */
  function ParseItems(items: seq<string>): seq<u32> {
    if items == [] then []
    else
      match ParseU32(Trim(items[0]))
      case Some(v) => [v] + ParseItems(items[1..])
      case None => ParseItems(items[1..])
  }

  function ParseVersionList(s: string): seq<u32> { ParseItems(Split(s, ',')) }

  lemma {:induction false} ItemsOfDecimals(vs: seq<u32>)
    ensures |Decimals(vs)| == |vs| && forall p <- Decimals(vs) :: ',' !in p
    ensures ParseItems(Decimals(vs)) == vs
  {
    if vs != [] {
      DecimalIsPlain(vs[0], ',');
      ParseUndoesDecimal(vs[0]);
      ItemsOfDecimals(vs[1..]);
      assert Decimals(vs)[1..] == Decimals(vs[1..]);
    }
  }

  /** MAIN: every list of versions, even the empty one, arrives unchanged. */
  lemma VersionListRoundTrip(vs: seq<u32>)
    ensures ParseVersionList(EncodeVersionList(vs)) == vs
  {
    ItemsOfDecimals(vs);
    if vs == [] {
      assert Split("", ',') == [""] && Trim("") == "";
      assert [""][1..] == [];
    } else {
      SplitUndoesJoin(Decimals(vs), ',');
    }
  }

  /** Every item counts by itself: trimmed, and dropped if it is no 32-bit number. */
  lemma {:induction false} ItemsCountByThemselves(before: seq<string>, item: string, after: seq<string>)
    ensures ParseItems(before + ([item] + after)) ==
      ParseItems(before) + (if ParseU32(Trim(item)).Some? then [ParseU32(Trim(item)).value] else []) + ParseItems(after)
  {
    var all := before + ([item] + after);
    if before == [] {
      assert all == [item] + after && all[1..] == after;
    } else {
      assert all[0] == before[0] && all[1..] == before[1..] + ([item] + after);
      ItemsCountByThemselves(before[1..], item, after);
    }
  }

  // ---------------------------------------------------------------- agreeing on a version

  function NegotiateVersion(hostVersions: seq<u32>, pluginVersion: u32): Result<u32, Error> {
    if pluginVersion in hostVersions then Ok(pluginVersion) else Err(NoCompatibleVersion(hostVersions, pluginVersion))
  }

  predicate Sorted(vs: seq<u32>) { forall i, j :: 0 <= i < j < |vs| ==> vs[i] <= vs[j] }

  function Insert(v: u32, vs: seq<u32>): seq<u32> {
    if vs == [] || v <= vs[0] then [v] + vs else [vs[0]] + Insert(v, vs[1..])
  }

  /** `sort_unstable`: any sort will do. */
  function SortUnstable(vs: seq<u32>): seq<u32> {
    if vs == [] then [] else Insert(vs[0], SortUnstable(vs[1..]))
  }

  lemma {:induction false} InsertAdds(v: u32, vs: seq<u32>)
    ensures multiset(Insert(v, vs)) == multiset{v} + multiset(vs)
  {
    if vs != [] && v > vs[0] {
      InsertAdds(v, vs[1..]);
      assert vs == [vs[0]] + vs[1..];
    }
  }

  lemma SortedFront(v: u32, vs: seq<u32>)
    requires Sorted(vs) && forall w <- multiset(vs) :: v <= w
    ensures Sorted([v] + vs)
  {
    forall k | 0 <= k < |vs| ensures v <= vs[k] {
      assert vs[k] in multiset(vs);
    }
  }

  lemma {:induction false} InsertSorts(v: u32, vs: seq<u32>)
    requires Sorted(vs)
    ensures Sorted(Insert(v, vs))
  {
    if vs != [] && v > vs[0] {
      InsertSorts(v, vs[1..]);
      InsertAdds(v, vs[1..]);
      forall w | w in multiset(vs[1..]) ensures vs[0] <= w {
        assert w in vs[1..];
      }
      SortedFront(vs[0], Insert(v, vs[1..]));
    }
  }

  /** Sorted, with the same elements, each as often as before. */
  lemma {:induction false} SortUnstableSorts(vs: seq<u32>)
    ensures Sorted(SortUnstable(vs)) && multiset(SortUnstable(vs)) == multiset(vs)
  {
    if vs != [] {
      SortUnstableSorts(vs[1..]);
      InsertSorts(vs[0], SortUnstable(vs[1..]));
      InsertAdds(vs[0], SortUnstable(vs[1..]));
      assert vs == [vs[0]] + vs[1..];
    }
  }

  lemma SameMembers(s: seq<u32>, t: seq<u32>)
    requires multiset(s) == multiset(t)
    ensures forall v :: v in s <==> v in t
  {
    forall v ensures v in s <==> v in t {
      assert v in s <==> v in multiset(s);
      assert v in t <==> v in multiset(t);
    }
  }

  /** The keys of a hash map, in whatever order it yields them. */
  method CollectKeys<P>(plugins: map<u32, P>) returns (keys: seq<u32>)
    ensures forall v :: v in keys <==> v in plugins
    ensures forall i, j :: 0 <= i < j < |keys| ==> keys[i] != keys[j]
  {
    keys := [];
    var left := plugins.Keys;
    while left != {}
      invariant left <= plugins.Keys
      invariant forall v :: v in keys <==> v in plugins && v !in left
      invariant forall i, j :: 0 <= i < j < |keys| ==> keys[i] != keys[j]
      decreases |left|
    {
      var v :| v in left;
      keys := keys + [v];
      left := left - {v};
    }
  }

  datatype HostConfig<P> = HostConfig(handshakeVersion: u32, versionedPlugins: map<u32, P>)

  datatype ServeConfig<P> = ServeConfig(handshakeVersion: u32, plugins: P, versionedPlugins: map<u32, P>)

  /** The versions a host supports, as a set. */
  function HostVersions<P>(c: HostConfig<P>): set<u32> {
    if c.versionedPlugins == map[] then {c.handshakeVersion} else c.versionedPlugins.Keys
  }

  /** `supported_versions` of the client. */
  method SupportedVersions<P>(c: HostConfig<P>) returns (versions: seq<u32>)
    ensures Sorted(versions) && forall v :: v in versions <==> v in HostVersions(c)
    ensures c.versionedPlugins == map[] ==> versions == [c.handshakeVersion]
    ensures c.versionedPlugins != map[] ==> forall v :: v in versions <==> v in c.versionedPlugins
  {
    if |c.versionedPlugins| == 0 {
      return [c.handshakeVersion];
    }
    var keys := CollectKeys(c.versionedPlugins);
    SortUnstableSorts(keys);
    SameMembers(SortUnstable(keys), keys);
    versions := SortUnstable(keys);
  }

  ghost predicate IsGreatest(v: u32, vs: set<u32>) { v in vs && forall w <- vs :: w <= v }

  ghost predicate IsLeast(v: u32, vs: set<u32>) { v in vs && forall w <- vs :: v <= w }

  function Shared(offered: seq<u32>, supported: set<u32>): set<u32> { set v <- offered | v in supported }

  /** What a plugin should choose: see `negotiate_server_version`. */
  ghost predicate ServerChoice<P>(c: ServeConfig<P>, env: Option<string>, version: u32, plugins: P) {
    if c.versionedPlugins == map[] then version == c.handshakeVersion && plugins == c.plugins
    else
      match env
      case None =>
        IsLeast(version, c.versionedPlugins.Keys) && plugins == c.versionedPlugins[version]
      case Some(text) =>
        var common := Shared(ParseVersionList(text), c.versionedPlugins.Keys);
        if common != {} then IsGreatest(version, common) && plugins == c.versionedPlugins[version]
        else version == c.handshakeVersion && plugins == c.plugins
  }

  method Min(keys: seq<u32>) returns (min: u32)
    requires keys != []
    ensures min in keys && forall k <- keys :: min <= k
  {
    min := keys[0];
    for i := 1 to |keys|
      invariant min in keys && forall k :: 0 <= k < i ==> min <= keys[k]
    {
      if keys[i] < min {
        min := keys[i];
      }
    }
  }

  /** Scan the sorted versions from the greatest down. */
  method GreatestCommon(serverVersions: seq<u32>, hostVersions: seq<u32>) returns (r: Option<u32>)
    requires Sorted(serverVersions)
    ensures match r
      case Some(v) => v in serverVersions && v in hostVersions && forall w <- serverVersions :: w in hostVersions ==> w <= v
      case None => forall w <- serverVersions :: w !in hostVersions
  {
    for i := |serverVersions| downto 0
      invariant forall k :: i <= k < |serverVersions| ==> serverVersions[k] !in hostVersions
    {
      var ver := serverVersions[i];
      if ver in hostVersions {
        return Some(ver);
      }
    }
    return None;
  }

  method NegotiateServerVersion<P>(c: ServeConfig<P>, env: Option<string>) returns (version: u32, plugins: P)
    ensures ServerChoice(c, env, version, plugins)
  {
    if |c.versionedPlugins| == 0 {
      return c.handshakeVersion, c.plugins;
    }
    var keys := CollectKeys(c.versionedPlugins);
    assert exists k :: k in c.versionedPlugins;
    assert keys != [];
    if env.None? {
      var minVersion := Min(keys);
      return minVersion, c.versionedPlugins[minVersion];
    }
    var hostVersions := ParseVersionList(env.value);
    var serverVersions := SortUnstable(keys);
    SortUnstableSorts(keys);
    SameMembers(SortUnstable(keys), keys);
    var found := GreatestCommon(serverVersions, hostVersions);
    ghost var common := Shared(hostVersions, c.versionedPlugins.Keys);
    match found
    case Some(ver) =>
      assert ver in common;
      return ver, c.versionedPlugins[ver];
    case None =>
      assert common == {};
      return c.handshakeVersion, c.plugins;
  }

  /** The host's side of `start`: parse the line, check the core version, accept or refuse the version. */
  function HostAccepts(supported: seq<u32>, line: string): Result<u32, Error> {
    match Parse(line)
    case Err(e) => Err(e)
    case Ok(l) =>
      if l.coreVersion != CORE_PROTOCOL_VERSION then Err(CoreVersionMismatch(CORE_PROTOCOL_VERSION, l.coreVersion))
      else
        match NegotiateVersion(supported, l.appVersion)
        case Err(e) => Err(e)
        case Ok(_) => Ok(l.appVersion)
  }

  /** MAIN: exactly which lines the host accepts, and with which version. */
  lemma AcceptsExactly(supported: seq<u32>, line: string, v: u32)
    ensures HostAccepts(supported, line) == Ok(v) <==>
      Parse(line).Ok? && Parse(line).value.coreVersion == 1 && Parse(line).value.appVersion == v && v in supported
  {
  }

  /** MAIN: the host's answer to an intact line: the core version must be 1, and the application's one the host supports. */
  lemma AnswerToLine(supported: seq<u32>, before: string, l: Line, more: string)
    requires '\n' !in before && '|' !in before && Leads(before, l.coreVersion)
    requires Survives(l) && OneLine(l)
    ensures HostAccepts(supported, ReadLine(Printed(before, l, more))) ==
      if l.coreVersion != 1 then Err(CoreVersionMismatch(1, l.coreVersion))
      else if l.appVersion in supported then Ok(l.appVersion)
      else Err(NoCompatibleVersion(supported, l.appVersion))
  {
    HostReadsTheLine(before, l, more);
  }

  /**
  MAIN, end to end.  The host's list travels through the environment, the plugin's choice travels back
  in its line.  A versioned plugin settles on the greatest common version, serves the plugins of that
  version, and the host accepts; with no common version, or an unversioned plugin, the plugin falls
  back to its handshake version, which the host accepts exactly when it supports it.
  */
  lemma VersionsAgree<P>(host: HostConfig<P>, supported: seq<u32>, server: ServeConfig<P>, version: u32, plugins: P,
                         before: string, l: Line, more: string)
    requires forall v :: v in supported <==> v in HostVersions(host)
    requires ServerChoice(server, Some(EncodeVersionList(supported)), version, plugins)
    requires Survives(l) && OneLine(l) && l.coreVersion == CORE_PROTOCOL_VERSION && l.appVersion == version
    requires '\n' !in before && '|' !in before && Leads(before, l.coreVersion)
    ensures
      var common := HostVersions(host) * server.versionedPlugins.Keys;
      var answer := HostAccepts(supported, ReadLine(Printed(before, l, more)));
      if common != {} then
        IsGreatest(version, common) && plugins == server.versionedPlugins[version] && answer == Ok(version)
      else
        && version == server.handshakeVersion && plugins == server.plugins
        && answer == if version in HostVersions(host) then Ok(version) else Err(NoCompatibleVersion(supported, version))
  {
    AnswerToLine(supported, before, l, more);
    VersionListRoundTrip(supported);
    var common := HostVersions(host) * server.versionedPlugins.Keys;
    assert Shared(supported, server.versionedPlugins.Keys) == common;
    assert version in supported <==> version in HostVersions(host);
  }
}
