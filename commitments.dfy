/**
 * The coinbase outputs that carry BIP300 sidechain messages: an `OP_RETURN`,
 * a four-byte message tag, the sidechain slot, and a payload. An M1 (proposal)
 * carries the sidechain description itself; an M2 (acknowledgement) carries
 * the sha256d hash of the description.
 */
module Commitments {
  import opened Bytes
  import opened Outcomes
  import opened Consensus

  /** The four tag bytes both message builders write after `OP_RETURN`. */
  const MESSAGE_TAG: seq<byte> := [0xD5, 0xE0, 0xC4, 0xAF]

  /** The sidechain slot of the demonstration sidechain. */
  const DEMO_SIDECHAIN_SLOT: byte := 0xFF

  /** The bytes of the ASCII text "demo sidechain". */
  const DEMO_SIDECHAIN_DESCRIPTION: seq<byte> :=
    [0x64, 0x65, 0x6d, 0x6f, 0x20, 0x73, 0x69, 0x64, 0x65, 0x63, 0x68, 0x61, 0x69, 0x6e]

  /** A decoded message: the slot and the bytes after it. */
  datatype Message = Message(slot: byte, payload: seq<byte>)

  /** The output script carrying a message. */
  function MessageScript(m: Message): seq<byte>
  {
    [OP_RETURN] + MESSAGE_TAG + [m.slot] + m.payload
  }

  /** Reads a message script back: `None` unless it starts with `OP_RETURN` and the tag. */
  function ParseMessage(script: seq<byte>): (r: Option<Message>)
    ensures r.Some? ==> |script| >= 6 && script[0] == OP_RETURN && script[1..5] == MESSAGE_TAG
    ensures r.Some? ==> r.value.slot == script[5]
  {
    if |script| >= 6 && script[0] == OP_RETURN && script[1..5] == MESSAGE_TAG
    then Some(Message(script[5], script[6..]))
    else None
  }

  /** Parsing a message script gives the message back. */
  lemma ParseMessageScript(m: Message)
    ensures ParseMessage(MessageScript(m)) == Some(m)
  {
    var s := MessageScript(m);
    assert s[1..5] == MESSAGE_TAG;
    assert s[6..] == m.payload;
  }

  /** A script that parses is exactly the script of what it parses to. */
  lemma MessageScriptOfParse(script: seq<byte>)
    requires ParseMessage(script).Some?
    ensures MessageScript(ParseMessage(script).value) == script
  {
    assert script == [script[0]] + script[1..5] + [script[5]] + script[6..];
  }

  /** `m1_txout`: a zero-value output whose message payload is the description. */
  function M1Txout(slot: byte, description: seq<byte>): TxOut
  {
    TxOut(0, [OP_RETURN] + [0xD5, 0xE0, 0xC4, 0xAF, slot] + description)
  }

  /** `m2_txout`: a zero-value output whose message payload is the sha256d of the description. */
  function M2Txout(p: Primitives, slot: byte, description: seq<byte>): TxOut
  {
    TxOut(0, [OP_RETURN] + [0xD5, 0xE0, 0xC4, 0xAF, slot] + p.sha256d(description))
  }

  /** An M1 output is free and reads back as the slot and the full description. */
  lemma M1Decodes(slot: byte, description: seq<byte>)
    ensures M1Txout(slot, description).value == 0
    ensures ParseMessage(M1Txout(slot, description).scriptPubkey) == Some(Message(slot, description))
    ensures |M1Txout(slot, description).scriptPubkey| == 6 + |description|
  {
    assert M1Txout(slot, description).scriptPubkey == MessageScript(Message(slot, description));
    ParseMessageScript(Message(slot, description));
  }

  /** An M2 output is free, 38 bytes long, and reads back as the slot and the description's hash. */
  lemma M2Decodes(p: Primitives, slot: byte, description: seq<byte>)
    ensures M2Txout(p, slot, description).value == 0
    ensures ParseMessage(M2Txout(p, slot, description).scriptPubkey) == Some(Message(slot, p.sha256d(description)))
    ensures |M2Txout(p, slot, description).scriptPubkey| == 38
  {
    var m := Message(slot, p.sha256d(description));
    assert M2Txout(p, slot, description).scriptPubkey == MessageScript(m);
    ParseMessageScript(m);
  }

  /** An M2 output depends on the description only through its hash. */
  lemma M2OnlyThroughHash(p: Primitives, slot: byte, d1: seq<byte>, d2: seq<byte>)
    requires p.sha256d(d1) == p.sha256d(d2)
    ensures M2Txout(p, slot, d1) == M2Txout(p, slot, d2)
  {
  }

  /** Unless the description is itself 32 bytes long, an M2 does not carry it. */
  lemma M2PayloadIsNotDescription(p: Primitives, slot: byte, description: seq<byte>)
    requires |description| != 32
    ensures ParseMessage(M2Txout(p, slot, description).scriptPubkey).value.payload != description
  {
    M2Decodes(p, slot, description);
  }

  /** For one slot, an M1 and an M2 begin with the same six bytes. */
  lemma M1M2SharePrefix(p: Primitives, slot: byte, d1: seq<byte>, d2: seq<byte>)
    ensures M1Txout(slot, d1).scriptPubkey[..6] == M2Txout(p, slot, d2).scriptPubkey[..6]
            == [OP_RETURN] + MESSAGE_TAG + [slot]
  {
    M1Decodes(slot, d1);
    M2Decodes(p, slot, d2);
  }

  /** The demonstration M1 is 20 bytes: the 6-byte prefix and the 14-byte description. */
  lemma DemoM1Size()
    ensures |M1Txout(DEMO_SIDECHAIN_SLOT, DEMO_SIDECHAIN_DESCRIPTION).scriptPubkey| == 20
  {
    M1Decodes(DEMO_SIDECHAIN_SLOT, DEMO_SIDECHAIN_DESCRIPTION);
  }
}
