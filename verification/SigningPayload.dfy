/** The bytes that validators sign for the four kinds of consensus message, in both versions, and
    exactly when two messages have the same bytes. */
module SigningPayload {
  import opened BftTypes

  /** A message as far as its signature covers it; texts are their bytes. */
  datatype Message =
    | Proposal(height: u64, round: u32, hash: Bytes)
    | Prevote(height: u64, round: u32, vote: Option<Bytes>)
    | Precommit(height: u64, round: u32, vote: Option<Bytes>)
    | RoundStatus(height: u64, round: u32, validator: Bytes)

  const NIL: Bytes := [0x4E, 0x49, 0x4C]
  const V2_MAGIC: byte := 0x20

  function LittleEndian(n: nat, k: nat): (s: Bytes)
    ensures |s| == k
  {
    if k == 0 then [] else [n % 256] + LittleEndian(n / 256, k - 1)
  }

  function BigEndian(n: nat, k: nat): (s: Bytes)
    ensures |s| == k
  {
    if k == 0 then [] else BigEndian(n / 256, k - 1) + [n % 256]
  }

  function Tag(m: Message): byte {
    match m
    case Proposal(_, _, _) => 1
    case Prevote(_, _, _) => 2
    case Precommit(_, _, _) => 3
    case RoundStatus(_, _, _) => 4
  }

  function VoteBytes(vote: Option<Bytes>): Bytes {
    match vote
    case Some(hash) => hash
    case None => NIL
  }

  function Body(m: Message): Bytes {
    match m
    case Proposal(_, _, hash) => hash
    case Prevote(_, _, vote) => VoteBytes(vote)
    case Precommit(_, _, vote) => VoteBytes(vote)
    case RoundStatus(_, _, validator) => validator
  }

  function Payload(m: Message): Bytes {
    LittleEndian(m.height, 8) + LittleEndian(m.round, 4) + Body(m) + [Tag(m)]
  }

  function PayloadV2(m: Message, chainId: u64): Bytes {
    [V2_MAGIC] + BigEndian(chainId, 8) + Payload(m)
  }

  /** `fork` is the height an operator sets for version 2. */
  function PayloadForHeight(fork: u64, m: Message, chainId: u64): Bytes {
    if m.height >= fork then PayloadV2(m, chainId) else Payload(m)
  }

  // ---- numbers ----

  function Pow256(k: nat): nat {
    if k == 0 then 1 else 256 * Pow256(k - 1)
  }

  function FromLittleEndian(s: Bytes): (n: nat)
    ensures n < Pow256(|s|)
  {
    if s == [] then 0 else s[0] + 256 * FromLittleEndian(s[1..])
  }

  function FromBigEndian(s: Bytes): nat {
    if s == [] then 0 else 256 * FromBigEndian(s[..|s| - 1]) + s[|s| - 1]
  }

  lemma {:induction false} ReadLittleEndian(n: nat, k: nat)
    requires n < Pow256(k)
    ensures FromLittleEndian(LittleEndian(n, k)) == n
  {
    if k > 0 {
      ReadLittleEndian(n / 256, k - 1);
      assert LittleEndian(n, k)[1..] == LittleEndian(n / 256, k - 1);
    }
  }

  lemma {:induction false} WriteLittleEndian(s: Bytes)
    ensures LittleEndian(FromLittleEndian(s), |s|) == s
  {
    if s != [] {
      WriteLittleEndian(s[1..]);
      SplitByte(s[0], FromLittleEndian(s[1..]));
      assert s == [s[0]] + s[1..];
    }
  }

  lemma SplitByte(low: byte, high: nat)
    ensures (low + 256 * high) % 256 == low && (low + 256 * high) / 256 == high
  {
  }

  lemma {:induction false} ReadBigEndian(n: nat, k: nat)
    requires n < Pow256(k)
    ensures FromBigEndian(BigEndian(n, k)) == n
  {
    if k > 0 {
      ReadBigEndian(n / 256, k - 1);
      assert BigEndian(n, k)[..k - 1] == BigEndian(n / 256, k - 1);
    }
  }

  lemma WordSizes()
    ensures Pow256(8) == U64_MAX + 1 && Pow256(4) == U32_MAX + 1
  {
    assert Pow256(2) == 65536;
    assert Pow256(4) == 65536 * 65536;
    assert Pow256(6) == 65536 * 65536 * 65536;
  }

  // ---- reading a payload back ----

  /** The message a payload was made from; a body that spells NIL is read as a nil vote. */
  function Parse(s: Bytes): Option<Message> {
    if |s| < 13 then None
    else
      WordSizes();
      var height: u64 := FromLittleEndian(s[..8]);
      var round: u32 := FromLittleEndian(s[8..12]);
      var body, tag := s[12..|s| - 1], s[|s| - 1];
      var vote := if body == NIL then None else Some(body);
      if tag == 1 then Some(Proposal(height, round, body))
      else if tag == 2 then Some(Message.Prevote(height, round, vote))
      else if tag == 3 then Some(Message.Precommit(height, round, vote))
      else if tag == 4 then Some(RoundStatus(height, round, body))
      else None
  }

  /** A vote for a block whose hash is the text NIL is told from a nil vote by nothing. */
  function Canonical(m: Message): Message {
    match m
    case Prevote(h, r, Some(hash)) => if hash == NIL then Message.Prevote(h, r, None) else m
    case Precommit(h, r, Some(hash)) => if hash == NIL then Message.Precommit(h, r, None) else m
    case _ => m
  }

  lemma PayloadParts(m: Message)
    ensures var s := Payload(m);
            && |s| == 13 + |Body(m)| && s[..8] == LittleEndian(m.height, 8) && s[8..12] == LittleEndian(m.round, 4)
            && s[12..|s| - 1] == Body(m) && s[|s| - 1] == Tag(m)
  {
  }

  /** Reading back gives the message, up to the spelling of nil. */
  lemma ParsePayload(m: Message)
    ensures Parse(Payload(m)) == Some(Canonical(m))
  {
    PayloadParts(m);
    WordSizes();
    ReadLittleEndian(m.height, 8);
    ReadLittleEndian(m.round, 4);
  }

  lemma CanonicalPayload(m: Message)
    ensures Payload(Canonical(m)) == Payload(m)
  {
  }

  /** Two messages have the same bytes exactly when they agree in kind, height, round and content,
      up to the spelling of nil. */
  lemma PayloadEqualIff(m: Message, n: Message)
    ensures Payload(m) == Payload(n) <==> Canonical(m) == Canonical(n)
  {
    ParsePayload(m);
    ParsePayload(n);
    CanonicalPayload(m);
    CanonicalPayload(n);
  }

  /** Every byte string of the right shape is the payload of some message. */
  lemma PayloadOnto(s: Bytes)
    requires |s| >= 13 && 1 <= s[|s| - 1] <= 4
    ensures Parse(s).Some? && Payload(Parse(s).value) == s
  {
    WriteLittleEndian(s[..8]);
    WriteLittleEndian(s[8..12]);
    assert s == s[..8] + s[8..12] + s[12..|s| - 1] + [s[|s| - 1]];
  }

  // ---- version 2 ----

  lemma PayloadV2Parts(m: Message, chainId: u64)
    ensures var s := PayloadV2(m, chainId);
            |s| == 9 + |Payload(m)| && s[1..9] == BigEndian(chainId, 8) && s[9..] == Payload(m) && s[|s| - 1] == Tag(m)
  {
    PayloadParts(m);
  }

  /** Reading version 2: the magic byte, the chain in big-endian order, and the version 1 payload. */
  function ParseV2(s: Bytes): Option<(nat, Message)> {
    if |s| < 9 || s[0] != 0x20 then None
    else match Parse(s[9..])
      case None => None
      case Some(m) => Some((FromBigEndian(s[1..9]), m))
  }

  /** Reading back gives the chain and the message, up to the spelling of nil. */
  lemma ParsePayloadV2(m: Message, chainId: u64)
    ensures ParseV2(PayloadV2(m, chainId)) == Some((chainId, Canonical(m)))
  {
    PayloadV2Parts(m, chainId);
    WordSizes();
    ReadBigEndian(chainId, 8);
    ParsePayload(m);
  }

  /** Version 2 also fixes the chain. */
  lemma PayloadV2EqualIff(m: Message, n: Message, c: u64, d: u64)
    ensures PayloadV2(m, c) == PayloadV2(n, d) <==> c == d && Canonical(m) == Canonical(n)
  {
    PayloadV2Parts(m, c);
    PayloadV2Parts(n, d);
    WordSizes();
    ReadBigEndian(c, 8);
    ReadBigEndian(d, 8);
    PayloadEqualIff(m, n);
  }

  /** Hashes of 64 characters, addresses of 42: what the node puts into its messages. */
  predicate NodeMade(m: Message) {
    match m
    case Proposal(_, _, hash) => |hash| == 64
    case Prevote(_, _, vote) => vote.Some? ==> |vote.value| == 64
    case Precommit(_, _, vote) => vote.Some? ==> |vote.value| == 64
    case RoundStatus(_, _, validator) => |validator| == 42
  }

  /** Whatever a version 2 payload shares with a version 1 payload, it is the kind, and its body is
      nine bytes shorter. */
  lemma VersionsMeet(m: Message, n: Message, c: u64)
    requires Payload(m) == PayloadV2(n, c)
    ensures Tag(m) == Tag(n) && |Body(m)| == |Body(n)| + 9
  {
    PayloadParts(m);
    PayloadParts(n);
    PayloadV2Parts(n, c);
  }

  /** The magic byte alone does not separate the versions: every version 2 payload is also the
      version 1 payload of some message. */
  lemma VersionsOverlap(n: Message, c: u64) returns (m: Message)
    ensures Payload(m) == PayloadV2(n, c)
  {
    PayloadParts(n);
    PayloadV2Parts(n, c);
    PayloadOnto(PayloadV2(n, c));
    m := Parse(PayloadV2(n, c)).value;
  }

  /** The fixed lengths do. */
  lemma VersionsApart(m: Message, n: Message, c: u64)
    requires NodeMade(m) && NodeMade(n)
    ensures Payload(m) != PayloadV2(n, c)
  {
    if Payload(m) == PayloadV2(n, c) {
      VersionsMeet(m, n, c);
    }
  }

  /** Whatever the fork height, the bytes built for a height determine the message, and from the fork
      on the chain. */
  lemma SignedBytesDetermine(fork: u64, m: Message, n: Message, c: u64, d: u64)
    requires NodeMade(m) && NodeMade(n)
    ensures PayloadForHeight(fork, m, c) == PayloadForHeight(fork, n, d)
       <==> m == n && (m.height >= fork ==> c == d)
  {
    PayloadEqualIff(m, n);
    PayloadV2EqualIff(m, n, c, d);
    VersionsApart(m, n, d);
    VersionsApart(n, m, c);
  }
}
