/**
 * Showing a device and setting what was shown restores it: `wg showconf` then `wg setconf`
 * of internal/wgconfig and internal/wgconf, from any state the device may be in by then.
 */
module ShowconfRestores {
  import opened Wrappers
  import opened WgTypes
  import opened DeviceModel
  import opened Seqs
  import opened Text
  import opened Addresses
  import opened Endpoints
  import opened ConfigMeaning
  import opened ConfigParse
  import opened ConfigText
  import opened ConfigSpells
  import opened Showconf
  import opened ShowconfParses
  import opened ShowconfMeans
  import opened Conf

  // ----- the file -----

  lemma {:induction false} NamesFit(o: Outside, ps: seq<Peer>)
    requires Lawful(o) && Retries(o).Some? && FirstBadName(ps).None?
    requires forall i :: 0 <= i < |ps| ==> PeerWritable(ps[i])
    ensures forall p <- ps :: PeerFits(o, p)
  {
    hide Lawful, PeerWritable, NameOk, Retries;
    if ps == [] {
    } else {
      var init, p := ps[..|ps| - 1], ps[|ps| - 1];
      NamesFit(o, init);
      assert ps == init + [p];
    }
  }

  lemma {:induction false} PrefixAccepted(o: Outside, raw: seq<string>, n: nat)
    requires n <= |raw| && FirstBad(o, Classified(raw)).None?
    ensures FirstBad(o, Classified(raw[..n])).None?
  {
    hide Classified, FirstBad;
    ClassifiedPrefix(raw, n);
    if FirstBad(o, Classified(raw[..n])).Some? {
      FirstBadStays(o, Classified(raw), n);
    }
  }

  /** A written device is read back, unless a line of it is too long for the scanner. */
  lemma {:induction false} FileParses(o: Outside, d: Device)
    requires Lawful(o) && Retries(o).Some? && Writable(d) && FirstBadName(d.peers).None?
    ensures var lines := DeviceLines(o, d);
            Parsed(o, Unlines(lines), false) ==
            if Scanned(lines) == |lines| then Ok(RestoringDevice(d)) else Err(LineTooLong)
  {
    hide Lawful, Writable, PeerFits, HeaderFields, DeviceLines, DeviceSays, ConfigFrom, Classified, FirstBad, Scanned,
      Printable, Retries;
    var lines := DeviceLines(o, d);
    DeviceLinesSay(o, d);
    PrintableLines(lines);
    NamesFitAll(o, d);
    DeviceReads(o, d);
    PrefixAccepted(o, lines, Scanned(lines));
    BlocksMean(o, d.peers);
    NoneKeyless(o, d.peers);
    HeaderMeans(d, RestoringAll(d.peers));
    Whole(lines);
  }

  lemma {:induction false} NamesFitAll(o: Outside, d: Device)
    requires Lawful(o) && Retries(o).Some? && Writable(d) && FirstBadName(d.peers).None?
    ensures forall p <- d.peers :: PeerFits(o, p)
  {
    NamesFit(o, d.peers);
  }

  lemma {:induction false} PrintableLines(lines: seq<string>)
    requires Printable(lines)
    ensures Lines(Unlines(lines)) == lines
  {
    LinesUnlines(lines);
  }

  /** Encode and Parse together. */
  method ShowThenParse(o: Outside, d: Device) returns (r: Option<Result<Config, ParseError>>)
    requires Lawful(o) && Retries(o).Some? && Writable(d)
    ensures r.Some? <==> FirstBadName(d.peers).None?
    ensures r.Some? ==>
              r.value == if Scanned(DeviceLines(o, d)) == |DeviceLines(o, d)| then Ok(RestoringDevice(d))
                else Err(LineTooLong)
  {
    hide Lawful, Writable, DeviceLines, RestoringDevice, Parsed;
    var w := new Writer();
    var bad := Encode(w, o, d);
    if bad.Some? {
      return None;
    }
    var parsed := Parse(o, w.text, false);
    FileParses(o, d);
    r := Some(parsed);
  }

  // ----- the device -----

  function Held(p: Peer): PeerState {
    PeerState(if p.hasPresharedKey then p.presharedKey else ZeroKey(), p.endpoint, WholeSeconds(p.keepalive))
  }

  /** The dump `d` tells all of the state `s`, with every network given by its network address. */
  ghost predicate Reports(d: Device, s: State) {
    && s.privateKey == (if d.hasPrivateKey then d.privateKey else ZeroKey())
    && s.listenPort == d.listenPort && s.firewallMark == d.firewallMark
    && DistinctPeers(d.peers) && PeerKeys(d.peers) == s.peers.Keys
    && (forall p <- d.peers :: s.peers[p.publicKey] == Held(p))
    && (forall p <- d.peers, c <- p.allowedIPs :: c in s.table && s.table[c] == p.publicKey)
    && (forall c <- s.table :: IsMasked(c) && exists p <- d.peers :: p.publicKey == s.table[c] && c in p.allowedIPs)
  }

  function HeardAll(nets: seq<Cidr>): set<Cidr> {
    set c <- nets :: Heard(c)
  }

  lemma {:induction false} SetsStep(table: map<Cidr, Key>, k: Key, nets: seq<Cidr>)
    requires nets != []
    ensures var init, c := nets[..|nets| - 1], nets[|nets| - 1];
            ApplyOps(table, k, Sets(nets)) == ApplyOps(table, k, Sets(init))[Heard(c) := k]
  {
    hide Masked, Spoken;
    var init, op := nets[..|nets| - 1], AllowedIPConfig(Spoken(nets[|nets| - 1]), AllowedIPSet);
    assert Sets(nets) == Sets(init) + [op];
    assert Sets(nets)[..|Sets(nets)| - 1] == Sets(init);
  }

  lemma {:induction false} HeardAllSnoc(init: seq<Cidr>, c: Cidr)
    ensures HeardAll(init + [c]) == HeardAll(init) + {Heard(c)}
  {
    hide Heard;
    assert forall x <- init :: x in init + [c];
    assert c in init + [c];
  }

  /** Setting networks adds them to the table. */
  lemma {:induction false} SetsKeys(table: map<Cidr, Key>, k: Key, nets: seq<Cidr>)
    ensures ApplyOps(table, k, Sets(nets)).Keys == table.Keys + HeardAll(nets)
  {
    hide ApplyOp, Heard, HeardAll;
    if nets == [] {
      NothingHeard();
    } else {
      var init, c := nets[..|nets| - 1], nets[|nets| - 1];
      SetsKeys(table, k, init);
      SetsStep(table, k, nets);
      HeardAllSnoc(init, c);
      assert nets == init + [c];
    }
  }

  lemma {:induction false} NothingHeard()
    ensures HeardAll([]) == {}
  {
  }

  /** They belong to `k` then, and every other network to whom it belonged. */
  lemma {:induction false} SetsOwner(table: map<Cidr, Key>, k: Key, nets: seq<Cidr>, c: Cidr)
    requires c in ApplyOps(table, k, Sets(nets))
    ensures c in HeardAll(nets) || c in table
    ensures ApplyOps(table, k, Sets(nets))[c] == if c in HeardAll(nets) then k else table[c]
  {
    hide ApplyOp, Heard, HeardAll;
    SetsKeys(table, k, nets);
    if nets == [] {
      NothingHeard();
    } else {
      var init, last := nets[..|nets| - 1], nets[|nets| - 1];
      SetsStep(table, k, nets);
      HeardAllSnoc(init, last);
      assert nets == init + [last];
      if c != Heard(last) {
        SetsOwner(table, k, init, c);
      }
    }
  }

  lemma {:induction false} SetsTable(table: map<Cidr, Key>, k: Key, nets: seq<Cidr>)
    ensures var t := ApplyOps(table, k, Sets(nets));
            && t.Keys == table.Keys + HeardAll(nets)
            && forall c <- t :: t[c] == if c in HeardAll(nets) then k else table[c]
  {
    hide ApplyOps, HeardAll, Sets;
    var t := ApplyOps(table, k, Sets(nets));
    SetsKeys(table, k, nets);
    forall c | c in t
      ensures t[c] == if c in HeardAll(nets) then k else table[c]
    {
      SetsOwner(table, k, nets, c);
    }
  }

  /** What a peer is after its entry is applied to a device without it. */
  function Loaded(p: Peer): PeerState {
    PeerState(if p.hasPresharedKey then p.presharedKey else ZeroKey(), SpokenEndpointOf(p), WholeSeconds(p.keepalive))
  }

  lemma {:induction false} RestoringEntries(p: Peer)
    ensures Entries(Restoring(p)) == Sets(p.allowedIPs)
  {
    hide Sets;
    assert AddAll([]) == [];
  }

  lemma {:induction false} RestoringSettings(p: Peer)
    requires PeerWritable(p)
    ensures Settings(NEW_PEER, Restoring(p)) == Loaded(p)
  {
    hide Sets, SpokenEndpointOf, HasName;
  }

  /** One more peer, on a device that has only others. */
  lemma {:induction false} LoadPeer(s: State, p: Peer)
    requires WellFormed(s) && p.publicKey !in s.peers && PeerWritable(p)
    ensures var t := ApplyPeer(s, Restoring(p));
            && t.peers == s.peers[p.publicKey := Loaded(p)]
            && t.table.Keys == s.table.Keys + HeardAll(p.allowedIPs)
            && forall c <- t.table :: t.table[c] == if c in HeardAll(p.allowedIPs) then p.publicKey else s.table[c]
  {
    hide Sets, SpokenEndpointOf, HasName, Entries, Settings, Loaded, HeardAll;
    var k := p.publicKey;
    RestoringEntries(p);
    RestoringSettings(p);
    assert DropOwner(s.table, k) == s.table;
    SetsTable(s.table, k, p.allowedIPs);
    assert Restoring(p).publicKey == k && !Restoring(p).remove && Restoring(p).replaceAllowedIPs;
  }

  /** The entries of a written device, on a device without peers. */
  lemma {:induction false} LoadPeers(s: State, ps: seq<Peer>)
    requires s.peers == map[] && s.table == map[] && DistinctPeers(ps) && forall p <- ps :: PeerWritable(p)
    ensures var t := ApplyPeers(s, RestoringAll(ps));
            && WellFormed(t)
            && t.peers.Keys == PeerKeys(ps)
            && (forall p <- ps :: t.peers[p.publicKey] == Loaded(p))
            && (forall c <- t.table :: exists p <- ps :: c in HeardAll(p.allowedIPs) && t.table[c] == p.publicKey)
            && (forall p <- ps, c <- HeardAll(p.allowedIPs) :: c in t.table)
  {
    hide ApplyPeer, Restoring, Loaded, HeardAll, PeerWritable;
    if ps == [] {
    } else {
      var init, p := ps[..|ps| - 1], ps[|ps| - 1];
      assert ps == init + [p];
      LoadPeers(s, init);
      PeerKeysSnoc(init, p);
      assert p.publicKey !in PeerKeys(init);
      var before := ApplyPeers(s, RestoringAll(init));
      LoadPeer(before, p);
    }
  }

  /** Nothing in the state is an IPv6 address that stands for an IPv4 one. */
  ghost predicate Speakable(s: State) {
    && (forall c <- s.table :: Spoken(c) == c)
    && (forall k <- s.peers :: s.peers[k].endpoint.Some? ==>
          Unmap(s.peers[k].endpoint.value.ip) == s.peers[k].endpoint.value.ip)
  }

  lemma {:induction false} HeardIsSpoken(c: Cidr)
    requires Spoken(c) == c
    ensures IsMasked(c) ==> Heard(c) == c
  {
  }

  /** A network heard from text is never an IPv4-mapped one, given that masking keeps the others so. */
  lemma {:induction false} HeardIsSpeakable(c: Cidr)
    requires IsMasked(c)
    ensures Spoken(Heard(c)) == Heard(c)
  {
    hide MaskBytes;
    if Spoken(c) == c {
      HeardIsSpoken(c);
    } else {
      assert Heard(c).Cidr4?;
    }
  }

  /** The state that a written device is restored to. */
  function Restored(s0: State, d: Device): State {
    ApplyConfig(s0, RestoringDevice(d))
  }

  lemma {:induction false} RestoredParts(d: Device, s: State, s0: State)
    requires Reports(d, s) && Writable(d)
    ensures var t := Restored(s0, d);
            && t.privateKey == s.privateKey && t.listenPort == s.listenPort && t.firewallMark == s.firewallMark
            && WellFormed(t)
            && t.peers.Keys == PeerKeys(d.peers)
            && (forall p <- d.peers :: t.peers[p.publicKey] == Loaded(p))
            && (forall c <- t.table :: exists p <- d.peers :: c in HeardAll(p.allowedIPs) && t.table[c] == p.publicKey)
            && (forall p <- d.peers, c <- HeardAll(p.allowedIPs) :: c in t.table)
  {
    hide Loaded, HeardAll, Held, IsMasked, PeerWritable;
    var cfg := RestoringDevice(d);
    var start := ApplyHeader(s0, cfg);
    assert Uint16(d.listenPort) == d.listenPort && Uint32(d.firewallMark) == d.firewallMark;
    ApplyPeersKeepsHeader(start, cfg.peers);
    LoadPeers(start, d.peers);
  }

  /** Some peer of the dump names a network that is heard as `c`, and owns it. */
  ghost predicate HeardFrom(ps: seq<Peer>, c: Cidr, k: Key) {
    exists i, j :: 0 <= i < |ps| && 0 <= j < |ps[i].allowedIPs| && ps[i].publicKey == k
      && Heard(ps[i].allowedIPs[j]) == c
  }

  lemma {:induction false} RestoredOwners(d: Device, s: State, s0: State, c: Cidr)
    requires Reports(d, s) && Writable(d) && c in Restored(s0, d).table
    ensures HeardFrom(d.peers, c, Restored(s0, d).table[c])
  {
    hide Restored, Heard, Reports, Writable, Loaded;
    RestoredParts(d, s, s0);
    var p :| p in d.peers && c in HeardAll(p.allowedIPs) && Restored(s0, d).table[c] == p.publicKey;
    var net :| net in p.allowedIPs && c == Heard(net);
  }

  lemma {:induction false} RestoredHears(d: Device, s: State, s0: State, p: Peer, c: Cidr)
    requires Reports(d, s) && Writable(d) && p in d.peers && c in p.allowedIPs
    ensures Heard(c) in Restored(s0, d).table
  {
    hide Restored, Heard, Reports, Writable, Loaded;
    RestoredParts(d, s, s0);
    assert Heard(c) in HeardAll(p.allowedIPs);
  }

  lemma {:induction false} ReportedNet(d: Device, s: State, i: nat, j: nat)
    requires Reports(d, s) && i < |d.peers| && j < |d.peers[i].allowedIPs|
    ensures var c := d.peers[i].allowedIPs[j]; c in s.table && s.table[c] == d.peers[i].publicKey && IsMasked(c)
  {
    hide Held, IsMasked;
    assert d.peers[i] in d.peers && d.peers[i].allowedIPs[j] in d.peers[i].allowedIPs;
  }

  lemma {:induction false} ReportedBy(d: Device, s: State, c: Cidr) returns (p: Peer)
    requires Reports(d, s) && c in s.table
    ensures p in d.peers && p.publicKey == s.table[c] && c in p.allowedIPs && IsMasked(c)
  {
    hide Held, IsMasked;
    p :| p in d.peers && p.publicKey == s.table[c] && c in p.allowedIPs;
  }

  lemma {:induction false} SpeakableTable(d: Device, s: State, s0: State)
    requires Reports(d, s) && Writable(d) && Speakable(s)
    ensures Restored(s0, d).table == s.table
  {
    hide Restored, Heard, Spoken, Writable, Unmap, Reports, IsMasked;
    var t := Restored(s0, d);
    forall c | c in t.table
      ensures c in s.table && s.table[c] == t.table[c]
    {
      RestoredOwners(d, s, s0, c);
      var i, j :| 0 <= i < |d.peers| && 0 <= j < |d.peers[i].allowedIPs| && d.peers[i].publicKey == t.table[c]
                  && Heard(d.peers[i].allowedIPs[j]) == c;
      ReportedNet(d, s, i, j);
      HeardIsSpoken(d.peers[i].allowedIPs[j]);
    }
    forall c | c in s.table
      ensures c in t.table
    {
      var p := ReportedBy(d, s, c);
      RestoredHears(d, s, s0, p, c);
      HeardIsSpoken(c);
    }
  }

  lemma {:induction false} SpeakablePeers(d: Device, s: State, s0: State)
    requires Reports(d, s) && Writable(d)
    requires forall k <- s.peers :: s.peers[k].endpoint.Some? ==>
              Unmap(s.peers[k].endpoint.value.ip) == s.peers[k].endpoint.value.ip
    ensures Restored(s0, d).peers == s.peers
  {
    hide Restored, HeardAll, Heard, Writable, Unmap, IsMasked;
    var t := Restored(s0, d);
    RestoredParts(d, s, s0);
    forall k | k in t.peers
      ensures k in s.peers && t.peers[k] == s.peers[k]
    {
      var p :| p in d.peers && p.publicKey == k;
      assert t.peers[k] == Loaded(p) && s.peers[k] == Held(p);
    }
  }

  lemma {:induction false} RestoredSpeaks(d: Device, s: State, s0: State)
    requires Reports(d, s) && Writable(d)
    ensures Speakable(Restored(s0, d))
  {
    hide Restored, Heard, Spoken, Writable, Reports, IsMasked, Unmap;
    var t := Restored(s0, d);
    forall c | c in t.table
      ensures Spoken(c) == c
    {
      RestoredOwners(d, s, s0, c);
      var i, j :| 0 <= i < |d.peers| && 0 <= j < |d.peers[i].allowedIPs| && d.peers[i].publicKey == t.table[c]
                  && Heard(d.peers[i].allowedIPs[j]) == c;
      ReportedNet(d, s, i, j);
      HeardIsSpeakable(d.peers[i].allowedIPs[j]);
    }
    RestoredParts(d, s, s0);
    forall k | k in t.peers && t.peers[k].endpoint.Some?
      ensures Unmap(t.peers[k].endpoint.value.ip) == t.peers[k].endpoint.value.ip
    {
      var p :| p in d.peers && p.publicKey == k;
      UnmapTwice(p);
    }
  }

  lemma {:induction false} UnmapTwice(p: Peer)
    ensures Loaded(p).endpoint.Some? ==> Unmap(Loaded(p).endpoint.value.ip) == Loaded(p).endpoint.value.ip
  {
  }

  /**
   * Setting what was shown restores every reported device from any state, exactly when
   * neither its table nor its endpoints hold an IPv4-mapped IPv6 address.
   */
  lemma {:induction false} RestoresExactly(d: Device, s: State, s0: State)
    requires Reports(d, s) && Writable(d)
    ensures Restored(s0, d) == s <==> Speakable(s)
  {
    hide Restored, Speakable, Writable, Reports;
    RestoredSpeaks(d, s, s0);
    if Speakable(s) {
      RestoredHeader(d, s, s0);
      SpeakableTable(d, s, s0);
      SpeakableEndpoints(s);
      SpeakablePeers(d, s, s0);
    }
  }

  lemma {:induction false} SpeakableEndpoints(s: State)
    requires Speakable(s)
    ensures forall k <- s.peers :: s.peers[k].endpoint.Some? ==>
              Unmap(s.peers[k].endpoint.value.ip) == s.peers[k].endpoint.value.ip
  {
  }

  lemma {:induction false} RestoredHeader(d: Device, s: State, s0: State)
    requires Reports(d, s) && Writable(d)
    ensures var t := Restored(s0, d);
            t.privateKey == s.privateKey && t.listenPort == s.listenPort && t.firewallMark == s.firewallMark
  {
    RestoredParts(d, s, s0);
  }

  /** ::ffff:10.0.0.1 */
  function MappedTen(): UDPAddr {
    UDPAddr(IP6([0, 0, 0, 0, 0, 0, 0, 0, 0, 0, 255, 255, 10, 0, 0, 1]), 51820, "")
  }

  function DumpAt(k: Key, e: UDPAddr): Device {
    EMPTY_DEVICE.(peers := [EMPTY_PEER.(publicKey := k, endpoint := Some(e))])
  }

  function StateAt(k: Key, e: UDPAddr): State {
    State(ZeroKey(), 0, 0, map[k := PeerState(ZeroKey(), Some(e), 0)], map[])
  }

  /** A peer at ::ffff:10.0.0.1 is shown, and restored, at 10.0.0.1. */
  lemma {:induction false} MappedEndpointChanges(k: Key, s0: State)
    ensures Reports(DumpAt(k, MappedTen()), StateAt(k, MappedTen())) && Writable(DumpAt(k, MappedTen()))
    ensures Restored(s0, DumpAt(k, MappedTen())) != StateAt(k, MappedTen())
  {
    hide Restored;
    var e := MappedTen();
    var d, s := DumpAt(k, e), StateAt(k, e);
    assert d.peers[0] in d.peers && PeerKeys(d.peers) == {k};
    assert k in s.peers && Unmap(e.ip) != e.ip;
    RestoresExactly(d, s, s0);
  }
}
