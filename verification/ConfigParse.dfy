/** The line loop of the configuration parser: Parse of internal/wgconfig/parse.go. */
module ConfigParse {
  import opened Wrappers
  import opened WgTypes
  import opened Seqs
  import opened Text
  import opened Base64
  import opened Addresses
  import opened Endpoints
  import opened ConfigLines
  import opened ConfigMeaning

  // ----- one more line -----

  lemma {:induction false} LastValueSnoc(ls: seq<Line>, line: Line, field: Field)
    ensures LastValue(ls + [line], field) ==
            if ValueOf(line, field).Some? then ValueOf(line, field) else LastValue(ls, field)
  {
    assert (ls + [line])[..|ls|] == ls;
  }

  lemma {:induction false} PeerOfSnoc(o: Outside, ls: seq<Line>, line: Line)
    ensures LastName(ls + [line]) == if line.NameLine? then Some(line.text) else LastName(ls)
    ensures AllOperations(o, ls + [line]) == AllOperations(o, ls) + OperationsOf(o, line)
  {
    assert (ls + [line])[..|ls|] == ls;
  }

  /** A name line sets the name and leaves every field as it was. */
  lemma {:induction false} PeerOfName(o: Outside, ls: seq<Line>, text: string)
    ensures PeerOf(o, ls + [NameLine(text)]) == WithName(PeerOf(o, ls), ReadPeerName(o, text))
  {
    hide ReadCanonicalKey, ReadEndpoint, ReadAllowedIPs, ReadKeepalive, Incremental, ReadPeerName;
    var line := NameLine(text);
    PeerOfSnoc(o, ls, line);
    LastValueSnoc(ls, line, PublicKey);
    LastValueSnoc(ls, line, PresharedKey);
    LastValueSnoc(ls, line, Endpoint);
    LastValueSnoc(ls, line, AllowedIPs);
    LastValueSnoc(ls, line, PersistentKeepalive);
  }

  function WithName(p: PeerConfig, name: Option<string>): PeerConfig {
    p.(name := name)
  }

  /** The entry `p` once one more field of its section is read. */
  function WithField(o: Outside, p: PeerConfig, field: Field, value: string): PeerConfig {
    match field
    case PublicKey => p.(publicKey := ReadCanonicalKey(value).GetOr(ZeroKey()))
    case PresharedKey => p.(presharedKey := ReadCanonicalKey(value))
    case Endpoint => p.(endpoint := ReadEndpoint(o, value))
    case AllowedIPs =>
      p.(replaceAllowedIPs := !Incremental(value), operations := p.operations + ReadAllowedIPs(o, value).GetOr([]))
    case PersistentKeepalive => p.(keepalive := Some(ReadKeepalive(value).GetOr(0) * SECOND))
    case _ => p
  }

  lemma {:induction false} PeerOfField(o: Outside, ls: seq<Line>, field: Field, value: string)
    ensures PeerOf(o, ls + [FieldLine(field, value)]) == WithField(o, PeerOf(o, ls), field, value)
  {
    hide ReadCanonicalKey, ReadEndpoint, ReadAllowedIPs, ReadKeepalive, Incremental;
    var line := FieldLine(field, value);
    PeerOfSnoc(o, ls, line);
    LastValueSnoc(ls, line, PublicKey);
    LastValueSnoc(ls, line, PresharedKey);
    LastValueSnoc(ls, line, Endpoint);
    LastValueSnoc(ls, line, AllowedIPs);
    LastValueSnoc(ls, line, PersistentKeepalive);
  }

  lemma {:induction false} SectionsSnoc(ls: seq<Line>, line: Line)
    ensures SectionOf(ls + [line]) == SectionAfter(SectionOf(ls), line)
    ensures InterfaceLines(ls + [line]) ==
            if SectionOf(ls) == InInterface && Says(line) then InterfaceLines(ls) + [line] else InterfaceLines(ls)
    ensures PeerBlocks(ls + [line]) ==
            if line == PeerHeader then PeerBlocks(ls) + [[]]
            else if SectionOf(ls) == InPeer && Says(line) then AddLine(PeerBlocks(ls), line)
            else PeerBlocks(ls)
  {
    assert (ls + [line])[..|ls|] == ls;
    assert InterfaceLines(ls) + [] == InterfaceLines(ls);
  }

  function Keyed(blocks: seq<seq<Line>>): (r: seq<bool>)
    ensures |r| == |blocks|
  {
    if blocks == [] then []
    else Keyed(blocks[..|blocks| - 1]) + [LastValue(blocks[|blocks| - 1], PublicKey).Some?]
  }

  function Most<T>(s: seq<T>): seq<T>
    requires s != []
  {
    s[..|s| - 1]
  }

  function Last<T>(s: seq<T>): T
    requires s != []
  {
    s[|s| - 1]
  }

  lemma {:induction false} PeersSnoc(o: Outside, blocks: seq<seq<Line>>, block: seq<Line>)
    ensures PeersOf(o, blocks + [block]) == PeersOf(o, blocks) + [PeerOf(o, block)]
    ensures Keyed(blocks + [block]) == Keyed(blocks) + [LastValue(block, PublicKey).Some?]
  {
    assert (blocks + [block])[..|blocks|] == blocks;
  }

  /** A line added to the last section changes the last peer only. */
  lemma {:induction false} LastPeer(o: Outside, blocks: seq<seq<Line>>, line: Line)
    requires blocks != []
    ensures var last := Last(blocks) + [line];
            && Last(AddLine(blocks, line)) == last
            && PeersOf(o, AddLine(blocks, line)) == Most(PeersOf(o, blocks)) + [PeerOf(o, last)]
            && Keyed(AddLine(blocks, line)) == Most(Keyed(blocks)) + [LastValue(last, PublicKey).Some?]
    ensures Last(PeersOf(o, blocks)) == PeerOf(o, Last(blocks))
    ensures Last(Keyed(blocks)) == LastValue(Last(blocks), PublicKey).Some?
  {
    hide PeerOf, LastValue;
    PeersSnoc(o, Most(blocks), Last(blocks) + [line]);
    PeersSnoc(o, Most(blocks), Last(blocks));
    assert blocks == Most(blocks) + [Last(blocks)];
  }

  // ----- fields -----

  method PeerField(o: Outside, was: PeerConfig, field: Field, value: string) returns (ok: bool, peer: PeerConfig)
    ensures ok == PeerFieldOk(o, field, value)
    ensures ok ==> peer == WithField(o, was, field, value)
  {
    hide ReadCanonicalKey, ReadEndpoint, ReadAllowedIPs, ReadKeepalive, Incremental;
    ok, peer := true, was;
    match field {
      case PublicKey =>
        var v := ReadCanonicalKey(value);
        if v.None? {
          return false, peer;
        }
        peer := peer.(publicKey := v.value);
      case PresharedKey =>
        var v := ReadCanonicalKey(value);
        if v.None? {
          return false, peer;
        }
        peer := peer.(presharedKey := v);
      case Endpoint =>
        var v, _, _ := ResolveEndpoint(o, value);
        if v.None? {
          return false, peer;
        }
        peer := peer.(endpoint := v);
      case AllowedIPs =>
        peer := peer.(replaceAllowedIPs := true);
        var ops, incremental := ParseAllowedIPs(o, value);
        if ops.None? {
          return false, peer;
        }
        peer := peer.(operations := peer.operations + ops.value);
        if incremental {
          peer := peer.(replaceAllowedIPs := false);
        }
      case PersistentKeepalive =>
        var v := ReadKeepalive(value);
        if v.None? {
          return false, peer;
        }
        peer := peer.(keepalive := Some(v.value * SECOND));
      case _ =>
        ok := false;
    }
  }

  method InterfaceField(was: Config, ghost fields: seq<Line>, append: bool, field: Field, value: string)
    returns (ok: bool, cfg: Config)
    requires was == ConfigFrom(fields, was.peers, append)
    ensures ok == InterfaceFieldOk(field, value)
    ensures ok ==> cfg == ConfigFrom(fields + [FieldLine(field, value)], was.peers, append)
  {
    LastValueSnoc(fields, FieldLine(field, value), PrivateKey);
    LastValueSnoc(fields, FieldLine(field, value), ListenPort);
    LastValueSnoc(fields, FieldLine(field, value), FwMark);
    ok, cfg := true, was;
    match field {
      case PrivateKey =>
        var v := ReadCanonicalKey(value);
        if v.None? {
          return false, cfg;
        }
        cfg := cfg.(privateKey := v);
      case ListenPort =>
        var v := ReadPort(value);
        if v.None? {
          return false, cfg;
        }
        cfg := cfg.(listenPort := Some(v.value));
      case FwMark =>
        var v := ReadMark(value);
        if v.None? {
          return false, cfg;
        }
        cfg := cfg.(firewallMark := Some(v.value));
      case _ =>
        ok := false;
    }
  }

  // ----- lines -----

  /** The variables of the line loop; the current peer is the last one of `cfg`. */
  datatype Progress = Progress(cfg: Config, section: Section, hasKey: seq<bool>, hasName: bool)

  ghost predicate After(st: Progress, o: Outside, ls: seq<Line>, append: bool) {
    && st.cfg == ConfigFrom(InterfaceLines(ls), st.cfg.peers, append)
    && st.cfg.peers == PeersOf(o, PeerBlocks(ls))
    && st.section == SectionOf(ls)
    && st.hasKey == Keyed(PeerBlocks(ls))
    && st.hasName == Named(ls)
  }

  function WithEntries(cfg: Config, peers: seq<PeerConfig>): Config {
    cfg.(peers := peers)
  }

  /** A new section without lines. */
  lemma {:induction false} EmptySection(o: Outside)
    ensures PeerOf(o, []) == EmptyPeerEntry()
  {
  }

  function EmptyPeerEntry(): PeerConfig {
    PeerConfig(None, ZeroKey(), false, false, None, None, None, true, [], [])
  }

  lemma {:induction false} ConfigFromPeers(fields: seq<Line>, peers: seq<PeerConfig>, append: bool)
    ensures ConfigFrom(fields, peers, append).peers == peers
    ensures forall qs :: WithEntries(ConfigFrom(fields, peers, append), qs) == ConfigFrom(fields, qs, append)
  {
  }

  method TakeHeader(o: Outside, ghost ls: seq<Line>, was: Progress, append: bool, line: Line) returns (st: Progress)
    requires After(was, o, ls, append) && (line == InterfaceHeader || line == PeerHeader)
    ensures After(st, o, ls + [line], append)
  {
    hide PeerOf, ConfigFrom, PeersOf, Keyed;
    SectionsSnoc(ls, line);
    var cfg := was.cfg;
    if line == InterfaceHeader {
      st := Progress(cfg, InInterface, was.hasKey, false);
    } else {
      PeersSnoc(o, PeerBlocks(ls), []);
      ConfigFromPeers(InterfaceLines(ls), cfg.peers, append);
      EmptySection(o);
      cfg := WithEntries(cfg, cfg.peers + [EmptyPeerEntry()]);
      st := Progress(cfg, InPeer, was.hasKey + [false], false);
    }
  }

  /** The last peer and its flag are replaced by those of one more line. */
  lemma {:induction false} InLastPeer(o: Outside, ls: seq<Line>, was: Progress, append: bool, line: Line,
      peer: PeerConfig, st: Progress)
    requires After(was, o, ls, append) && was.section == InPeer && Says(line)
    requires peer == PeerOf(o, Last(PeerBlocks(ls)) + [line])
    requires st.cfg == WithEntries(was.cfg, Most(was.cfg.peers) + [peer]) && st.section == InPeer
    requires st.hasKey == Most(was.hasKey) + [Last(was.hasKey) || (line.FieldLine? && line.field == PublicKey)]
    requires st.hasName == (was.hasName || line.NameLine?)
    ensures After(st, o, ls + [line], append)
  {
    hide PeerOf, ConfigFrom, LastValue, PeersOf;
    SectionsSnoc(ls, line);
    var blocks := PeerBlocks(ls);
    LastPeer(o, blocks, line);
    LastValueSnoc(Last(blocks), line, PublicKey);
    PeerOfSnoc(o, Last(blocks), line);
    ConfigFromPeers(InterfaceLines(ls), was.cfg.peers, append);
  }

  method TakeName(o: Outside, ghost ls: seq<Line>, was: Progress, append: bool, text: string)
    returns (ok: bool, st: Progress)
    requires After(was, o, ls, append)
    ensures ok == LineOk(o, ls, NameLine(text))
    ensures ok ==> After(st, o, ls + [NameLine(text)], append)
  {
    if was.section != InPeer || was.hasName {
      return false, was;
    }
    var name := ReadPeerName(o, text);
    if name.None? {
      return false, was;
    }
    LastPeer(o, PeerBlocks(ls), NameLine(text));
    PeerOfName(o, Last(PeerBlocks(ls)), text);
    var peer := WithName(Last(was.cfg.peers), name);
    ok, st := true, Progress(WithEntries(was.cfg, Most(was.cfg.peers) + [peer]), was.section, was.hasKey, true);
    InLastPeer(o, ls, was, append, NameLine(text), peer, st);
  }

  method TakeField(o: Outside, ghost ls: seq<Line>, was: Progress, append: bool, field: Field, value: string)
    returns (ok: bool, st: Progress)
    requires After(was, o, ls, append)
    ensures ok == LineOk(o, ls, FieldLine(field, value))
    ensures ok ==> After(st, o, ls + [FieldLine(field, value)], append)
  {
    hide PeerFieldOk, InterfaceFieldOk, PeerOf, WithField, PeersOf, ConfigFrom;
    ghost var line := FieldLine(field, value);
    st := was;
    if was.section == InInterface {
      var cfg;
      ok, cfg := InterfaceField(was.cfg, InterfaceLines(ls), append, field, value);
      SectionsSnoc(ls, line);
      ConfigFromPeers(InterfaceLines(ls) + [line], was.cfg.peers, append);
      st := Progress(cfg, was.section, was.hasKey, was.hasName);
    } else if was.section == InPeer {
      LastPeer(o, PeerBlocks(ls), line);
      PeerOfField(o, Last(PeerBlocks(ls)), field, value);
      var peer;
      ok, peer := PeerField(o, Last(was.cfg.peers), field, value);
      var keyed := if field == PublicKey then true else Last(was.hasKey);
      st := Progress(WithEntries(was.cfg, Most(was.cfg.peers) + [peer]), was.section, Most(was.hasKey) + [keyed],
        was.hasName);
      if ok {
        InLastPeer(o, ls, was, append, line, peer, st);
      }
    } else {
      ok := false;
    }
  }

  // ----- the file -----

  lemma {:induction false} FirstBadStays(o: Outside, ls: seq<Line>, n: nat)
    requires n <= |ls| && FirstBad(o, ls[..n]).Some?
    ensures FirstBad(o, ls) == FirstBad(o, ls[..n])
    decreases |ls|
  {
    if n < |ls| {
      assert ls[..|ls| - 1][..n] == ls[..n];
      FirstBadStays(o, ls[..|ls| - 1], n);
    } else {
      Whole(ls);
    }
  }

  lemma {:induction false} ClassifiedPrefix(raw: seq<string>, n: nat)
    requires n <= |raw|
    ensures Classified(raw)[..n] == Classified(raw[..n])
  {
    hide Classify, DropCR;
    if n < |raw| {
      var init := raw[..|raw| - 1];
      TakeTake(raw, |raw| - 1, n);
      ClassifiedPrefix(init, n);
      TakeOf(Classified(init), [Classify(DropCR(raw[|raw| - 1]))], n);
    } else {
      Whole(raw);
      Whole(Classified(raw));
    }
  }

  lemma {:induction false} ClassifiedSnoc(raw: seq<string>, i: nat)
    requires i < |raw|
    ensures Classified(raw[..i + 1]) == Classified(raw[..i]) + [Classify(DropCR(raw[i]))]
  {
    Snoc(raw, i);
  }

  lemma {:induction false} FirstBadSnoc(o: Outside, ls: seq<Line>, line: Line)
    requires FirstBad(o, ls).None?
    ensures FirstBad(o, ls + [line]) == if LineOk(o, ls, line) then None else Some(|ls| + 1)
  {
    assert (ls + [line])[..|ls|] == ls;
  }

  lemma {:induction false} BlankLineKeeps(o: Outside, ls: seq<Line>, st: Progress, append: bool)
    requires After(st, o, ls, append)
    ensures After(st, o, ls + [BlankLine], append)
  {
    hide PeerOf, ConfigFrom, PeersOf;
    SectionsSnoc(ls, BlankLine);
  }

  method TakeLine(o: Outside, ghost ls: seq<Line>, was: Progress, append: bool, line: Line)
    returns (ok: bool, st: Progress)
    requires After(was, o, ls, append)
    ensures ok == LineOk(o, ls, line)
    ensures ok ==> After(st, o, ls + [line], append)
  {
    ok, st := true, was;
    match line {
      case NameLine(text) =>
        ok, st := TakeName(o, ls, was, append, text);
      case BlankLine =>
        BlankLineKeeps(o, ls, was, append);
      case BadLine =>
        ok := false;
      case FieldLine(field, value) =>
        ok, st := TakeField(o, ls, was, append, field, value);
      case _ =>
        st := TakeHeader(o, ls, was, append, line);
    }
  }

  lemma {:induction false} KeylessAt(blocks: seq<seq<Line>>, i: nat)
    requires i < |blocks|
    requires FirstKeyless(blocks[..i]).None?
    ensures Keyed(blocks)[i] == LastValue(blocks[i], PublicKey).Some?
    ensures FirstKeyless(blocks[..i + 1]) == if Keyed(blocks)[i] then None else Some(i + 1)
    ensures !Keyed(blocks)[i] ==> FirstKeyless(blocks) == Some(i + 1)
  {
    Snoc(blocks, i);
    KeyedAt(blocks, i);
    if !Keyed(blocks)[i] {
      KeylessStays(blocks, i + 1);
    }
  }

  lemma {:induction false} KeyedAt(blocks: seq<seq<Line>>, i: nat)
    requires i < |blocks|
    ensures Keyed(blocks)[i] == LastValue(blocks[i], PublicKey).Some?
  {
    if i == |blocks| - 1 {
    } else {
      KeyedAt(blocks[..|blocks| - 1], i);
    }
  }

  lemma {:induction false} KeylessStays(blocks: seq<seq<Line>>, n: nat)
    requires n <= |blocks| && FirstKeyless(blocks[..n]).Some?
    ensures FirstKeyless(blocks) == FirstKeyless(blocks[..n])
    decreases |blocks|
  {
    if n < |blocks| {
      assert blocks[..|blocks| - 1][..n] == blocks[..n];
      KeylessStays(blocks[..|blocks| - 1], n);
    } else {
      Whole(blocks);
    }
  }

  /** The default values that setting a configuration starts from. */
  function StartConfig(append: bool): Config {
    if append then Config(None, None, None, false, []) else Config(Some(ZeroKey()), Some(0), Some(0), true, [])
  }

  lemma {:induction false} StartsAfter(o: Outside, append: bool)
    ensures After(Progress(StartConfig(append), Nowhere, [], false), o, [], append)
    ensures FirstBad(o, []).None?
  {
  }

  /** The check after the last line: every peer has a public key. */
  method CheckKeys(hasKey: seq<bool>, ghost blocks: seq<seq<Line>>) returns (keyless: Option<nat>)
    requires hasKey == Keyed(blocks)
    ensures keyless == FirstKeyless(blocks)
  {
    hide Keyed, LastValue;
    assert blocks[..0] == [];
    for i := 0 to |hasKey|
      invariant FirstKeyless(blocks[..i]).None?
    {
      KeylessAt(blocks, i);
      if !hasKey[i] {
        return Some(i + 1);
      }
    }
    Whole(blocks);
    keyless := None;
  }

  method Parse(o: Outside, text: string, append: bool) returns (r: Result<Config, ParseError>)
    ensures r == Parsed(o, text, append)
  {
    hide Classify, DropCR, LineOk, Lines, Scanned, Keyed, ConfigFrom, StartConfig, FirstBad, Named, PeersOf;
    var raw := Lines(text);
    var n := Scanned(raw);
    var lines := raw[..n];
    var st := Progress(StartConfig(append), Nowhere, [], false);
    StartsAfter(o, append);
    assert lines[..0] == [];
    for i := 0 to n
      invariant FirstBad(o, Classified(lines[..i])).None?
      invariant After(st, o, Classified(lines[..i]), append)
    {
      ghost var ls := Classified(lines[..i]);
      ClassifiedSnoc(lines, i);
      var line := Classify(DropCR(lines[i]));
      FirstBadSnoc(o, ls, line);
      var ok;
      ok, st := TakeLine(o, ls, st, append, line);
      if !ok {
        ClassifiedPrefix(lines, i + 1);
        FirstBadStays(o, Classified(lines), i + 1);
        return Err(BadLineAt(i + 1));
      }
    }
    Whole(lines);
    if n < |raw| {
      return Err(LineTooLong);
    }
    var keyless := CheckKeys(st.hasKey, PeerBlocks(Classified(lines)));
    if keyless.Some? {
      return Err(MissingPublicKey(keyless.value));
    }
    r := Ok(st.cfg);
  }
}
