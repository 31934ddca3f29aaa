/** Which configuration files are accepted, and what every accepted peer satisfies. */
module ConfigLaws {
  import opened Wrappers
  import opened WgTypes
  import opened Seqs
  import opened Text
  import opened Base64
  import opened Addresses
  import opened Endpoints
  import opened ConfigLines
  import opened ConfigMeaning

  /** Every line may stand where it does. */
  ghost predicate AllLinesOk(o: Outside, ls: seq<Line>) {
    forall i :: 0 <= i < |ls| ==> LineOk(o, ls[..i], ls[i])
  }

  ghost predicate AllKeyed(blocks: seq<seq<Line>>) {
    forall i :: 0 <= i < |blocks| ==> LastValue(blocks[i], PublicKey).Some?
  }

  lemma {:induction false} NoneBad(o: Outside, ls: seq<Line>)
    ensures FirstBad(o, ls).None? <==> AllLinesOk(o, ls)
  {
    hide LineOk;
    if ls == [] {
    } else {
      var init := ls[..|ls| - 1];
      NoneBad(o, init);
      assert forall i :: 0 <= i < |init| ==> init[..i] == ls[..i] && init[i] == ls[i];
      assert ls[|ls| - 1] == ls[|init|];
    }
  }

  lemma {:induction false} NoneKeyless(blocks: seq<seq<Line>>)
    ensures FirstKeyless(blocks).None? <==> AllKeyed(blocks)
  {
    if blocks == [] {
    } else {
      NoneKeyless(blocks[..|blocks| - 1]);
    }
  }

  /** A file is accepted exactly when each line fits, may stand where it does, and each peer has a key. */
  lemma {:induction false} AcceptedExactly(o: Outside, text: string, append: bool)
    ensures var raw := Lines(text);
            Parsed(o, text, append).Ok? <==>
              && (forall i :: 0 <= i < |raw| ==> ByteLength(raw[i]) < 1048576)
              && AllLinesOk(o, Classified(raw))
              && AllKeyed(PeerBlocks(Classified(raw)))
  {
    hide AllLinesOk, AllKeyed, Classified, FirstBad, FirstKeyless, PeerBlocks, Meaning, ByteLength, Lines;
    var raw := Lines(text);
    var ls := Classified(raw[..Scanned(raw)]);
    Whole(raw);
    NoneBad(o, ls);
    NoneKeyless(PeerBlocks(ls));
  }

  // ----- peers -----

  ghost predicate BlockOk(o: Outside, block: seq<Line>) {
    forall i :: 0 <= i < |block| ==>
      match block[i]
      case FieldLine(field, value) => PeerFieldOk(o, field, value)
      case NameLine(text) => ReadPeerName(o, text).Some?
      case _ => false
  }

  lemma {:induction false} BlocksOk(o: Outside, ls: seq<Line>)
    requires FirstBad(o, ls).None?
    ensures forall i :: 0 <= i < |PeerBlocks(ls)| ==> BlockOk(o, PeerBlocks(ls)[i])
  {
    hide PeerFieldOk, InterfaceFieldOk, ReadPeerName, Named;
    if ls == [] {
    } else {
      var init := ls[..|ls| - 1];
      BlocksOk(o, init);
      var before, after := PeerBlocks(init), PeerBlocks(ls);
      forall i | 0 <= i < |after|
        ensures BlockOk(o, after[i])
      {
        if i < |before| {
          assert BlockOk(o, before[i]);
        }
      }
    }
  }

  lemma {:induction false} ValueIsOk(o: Outside, block: seq<Line>, field: Field)
    requires BlockOk(o, block) && LastValue(block, field).Some?
    ensures PeerFieldOk(o, field, LastValue(block, field).value)
  {
    hide PeerFieldOk, ReadPeerName;
    if ValueOf(block[|block| - 1], field).None? {
      ValueIsOk(o, block[..|block| - 1], field);
    }
  }

  lemma {:induction false} ReadPortInRange(o: Outside, value: string)
    requires LawfulPorts(o) && ReadEndpoint(o, value).Some?
    ensures 0 <= ReadEndpoint(o, value).value.port <= 65535
  {
    hide Literal, SplitEndpoint, LookedUp, Retries;
    var text := SplitEndpoint(value).value.1;
    assert ReadEndpoint(o, value).value.port == o.lookupPort(text).value;
  }

  /** The entry of an accepted section: a canonical key, and every number in its range. */
  ghost predicate Sound(p: PeerConfig, block: seq<Line>) {
    && LastValue(block, PublicKey) == Some(KeyText(p.publicKey))
    && (LastValue(block, PresharedKey).Some? <==> p.presharedKey.Some?)
    && (LastValue(block, Endpoint).Some? <==> p.endpoint.Some?)
    && (p.endpoint.Some? ==> 0 <= p.endpoint.value.port <= 65535)
    && (p.keepalive.Some? ==> 0 <= p.keepalive.value <= 65535 * SECOND && p.keepalive.value % SECOND == 0)
    && !p.remove && !p.updateOnly && p.allowedIPs == []
    && (p.name.Some? ==> ValidName(p.name.value))
  }

  lemma {:induction false} KeysSound(o: Outside, block: seq<Line>)
    requires BlockOk(o, block) && LastValue(block, PublicKey).Some?
    ensures LastValue(block, PublicKey) == Some(KeyText(PeerOf(o, block).publicKey))
    ensures LastValue(block, PresharedKey).Some? <==> PeerOf(o, block).presharedKey.Some?
  {
    hide BlockOk, KeyText, ReadCanonicalKey, Replaces, EndpointOf, KeepaliveOf, NameOf, AllOperations;
    ValueIsOk(o, block, PublicKey);
    KeyIsCanonical(LastValue(block, PublicKey).value);
    if LastValue(block, PresharedKey).Some? {
      ValueIsOk(o, block, PresharedKey);
    }
  }

  lemma {:induction false} EndpointSound(o: Outside, block: seq<Line>)
    requires LawfulPorts(o) && BlockOk(o, block)
    ensures var e := PeerOf(o, block).endpoint;
            (LastValue(block, Endpoint).Some? <==> e.Some?) && (e.Some? ==> 0 <= e.value.port <= 65535)
  {
    hide BlockOk, LawfulPorts, ReadEndpoint, Replaces, KeyOf, KeepaliveOf, NameOf, AllOperations;
    if LastValue(block, Endpoint).Some? {
      ValueIsOk(o, block, Endpoint);
      ReadPortInRange(o, LastValue(block, Endpoint).value);
    }
  }

  lemma {:induction false} KeepaliveSound(o: Outside, block: seq<Line>)
    requires BlockOk(o, block)
    ensures var d := PeerOf(o, block).keepalive;
            d.Some? ==> 0 <= d.value <= 65535 * SECOND && d.value % SECOND == 0
  {
    hide BlockOk, Replaces, KeyOf, EndpointOf, NameOf, AllOperations, IsOff;
    if LastValue(block, PersistentKeepalive).Some? {
      ValueIsOk(o, block, PersistentKeepalive);
    }
  }

  lemma {:induction false} SectionSound(o: Outside, block: seq<Line>)
    requires LawfulPorts(o) && BlockOk(o, block) && LastValue(block, PublicKey).Some?
    ensures Sound(PeerOf(o, block), block)
  {
    KeysSound(o, block);
    EndpointSound(o, block);
    KeepaliveSound(o, block);
    hide BlockOk, LawfulPorts, KeyOf, EndpointOf, KeepaliveOf, ValidName, KeyText, Replaces, AllOperations;
  }

  lemma {:induction false} KeyIsCanonical(value: string)
    requires ReadCanonicalKey(value).Some?
    ensures KeyText(ReadCanonicalKey(value).value) == value
  {
  }

  /** Every peer of an accepted file. */
  lemma {:induction false} PeersSound(o: Outside, text: string, append: bool, i: nat)
    requires LawfulPorts(o) && Parsed(o, text, append).Ok? && i < |Parsed(o, text, append).value.peers|
    ensures var blocks := PeerBlocks(Classified(Lines(text)));
            |blocks| == |Parsed(o, text, append).value.peers|
              && Sound(Parsed(o, text, append).value.peers[i], blocks[i])
  {
    hide Sound, LawfulPorts, PeerOf, FirstBad, FirstKeyless, PeerBlocks, Classified, Lines, BlockOk;
    var raw := Lines(text);
    Whole(raw);
    var ls := Classified(raw);
    BlocksOk(o, ls);
    NoneKeyless(PeerBlocks(ls));
    PeersAt(o, PeerBlocks(ls), i);
    SectionSound(o, PeerBlocks(ls)[i]);
  }

  lemma {:induction false} PeersAt(o: Outside, blocks: seq<seq<Line>>, i: nat)
    requires i < |blocks|
    ensures PeersOf(o, blocks)[i] == PeerOf(o, blocks[i])
  {
    hide PeerOf;
    if i == |blocks| - 1 {
    } else {
      PeersAt(o, blocks[..|blocks| - 1], i);
    }
  }
}
