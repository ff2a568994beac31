/** Verifier packets: one message per packet, a version byte, a type byte and the
    payload. */
module VerifierCodec {
  import opened Base
  import opened VerifierConversation
  import BigEndian
  import DisplayText

  const VERSION: byte := 1
  const HEADER: nat := 2
  const MAX_SESSION_ID: nat := 255
  const MAX_SECRET: nat := 1024
  const MAX_PACKET: nat := 1026

  predicate NoNul(s: seq<byte>) {
    forall i :: 0 <= i < |s| ==> s[i] != 0
  }

  predicate AcceptedText(s: Text)
    ensures AcceptedText(s) <==> DisplayText.IsDisplayText(s)
  {
    DisplayText.ScansIff(s);
    |s| <= DisplayText.MAX_TEXT && DisplayText.Scans(s)
  }

  predicate ValidSession(s: Text) {
    1 <= |s| <= MAX_SESSION_ID && NoNul(s)
  }

  predicate ValidSecret(s: seq<byte>) {
    |s| <= MAX_SECRET && NoNul(s)
  }

  /** The messages that have a packet. */
  predicate Valid(m: Message) {
    match m
    case StartVerification(_, session) => ValidSession(session)
    case SecretResponse(secret) => ValidSecret(secret)
    case CancelVerification => true
    case VerificationStatus(kind, text) => ValidKind(kind) && AcceptedText(text)
    case SecretRequired(prompt) => AcceptedText(prompt)
    case VerificationComplete(result) => ValidResult(result)
  }

  function TypeOf(m: Message): (t: byte)
    ensures 1 <= t <= 6
  {
    match m
    case StartVerification(_, _) => 1
    case SecretResponse(_) => 2
    case CancelVerification => 3
    case VerificationStatus(_, _) => 4
    case SecretRequired(_) => 5
    case VerificationComplete(_) => 6
  }

  function Payload(m: Message): (s: seq<byte>) {
    match m
    case StartVerification(uid, session) => BigEndian.Bytes4(uid) + session
    case SecretResponse(secret) => secret
    case CancelVerification => []
    case VerificationStatus(kind, text) => [kind] + text
    case SecretRequired(prompt) => prompt
    case VerificationComplete(result) => [result]
  }

  /** encode_verifier_message; None is its exception. */
  function Encode(m: Message): (p: Option<seq<byte>>) {
    if Valid(m) then Some([VERSION, TypeOf(m)] + Payload(m)) else None
  }

  function DecodePayload(t: byte, s: seq<byte>): (m: Option<Message>) {
    match t
    case 1 =>
      if |s| <= 4 || |s| > 4 + MAX_SESSION_ID || !ValidSession(s[4..]) then None
      else Some(StartVerification(BigEndian.Value4(s), s[4..]))
    case 2 => if ValidSecret(s) then Some(SecretResponse(s)) else None
    case 3 => if s == [] then Some(CancelVerification) else None
    case 4 =>
      if s == [] || |s| > 1 + DisplayText.MAX_TEXT || !ValidKind(s[0]) || !AcceptedText(s[1..]) then None
      else Some(VerificationStatus(s[0], s[1..]))
    case 5 => if AcceptedText(s) then Some(SecretRequired(s)) else None
    case 6 => if |s| != 1 || !ValidResult(s[0]) then None else Some(VerificationComplete(s[0]))
    case _ => None
  }

  /** decode_verifier_message; None is its exception. */
  function Decode(p: seq<byte>): (m: Option<Message>) {
    if |p| < HEADER || |p| > MAX_PACKET || p[0] != VERSION then None
    else DecodePayload(p[1], p[HEADER..])
  }

  /** Every valid message fits a packet. */
  lemma EncodingFits(m: Message)
    requires Valid(m)
    ensures HEADER <= |Encode(m).value| <= MAX_PACKET
  {
  }

  /** The packet of a message, byte by byte. */
  lemma EncodedAs(m: Message)
    requires Encode(m).Some?
    ensures Encode(m).value == match m
      case StartVerification(uid, session) =>
        [1, 1, uid / 0x100_0000, uid / 0x1_0000 % 256, uid / 0x100 % 256, uid % 256] + session
      case SecretResponse(secret) => [1, 2] + secret
      case CancelVerification => [1, 3]
      case VerificationStatus(kind, text) => [1, 4, kind] + text
      case SecretRequired(prompt) => [1, 5] + prompt
      case VerificationComplete(result) => [1, 6, result]
  {
    hide AcceptedText;
  }

  /** Which messages have a packet. */
  lemma EncodedIff(m: Message)
    ensures Encode(m).Some? <==> match m
      case StartVerification(_, session) => 1 <= |session| <= 255 && 0 !in session
      case SecretResponse(secret) => |secret| <= 1024 && 0 !in secret
      case CancelVerification => true
      case VerificationStatus(kind, text) => 1 <= kind <= 2 && DisplayText.IsDisplayText(text)
      case SecretRequired(prompt) => DisplayText.IsDisplayText(prompt)
      case VerificationComplete(result) => 1 <= result <= 3
  {
  }

  lemma PayloadRoundTrip(m: Message)
    requires Valid(m)
    ensures DecodePayload(TypeOf(m), Payload(m)) == Some(m)
  {
    hide AcceptedText;
    match m
    case StartVerification(uid, session) =>
      BigEndian.Value4Bytes4(uid, session);
      assert Payload(m)[4..] == session;
    case VerificationStatus(kind, text) => assert Payload(m)[1..] == text;
    case _ =>
  }

  /** Decoding an encoding returns the message. */
  lemma DecodeEncode(m: Message)
    requires Valid(m)
    ensures Decode(Encode(m).value) == Some(m)
  {
    hide DecodePayload;
    EncodingFits(m);
    PayloadRoundTrip(m);
    assert Encode(m).value[HEADER..] == Payload(m);
  }

  lemma PayloadDecoded(t: byte, s: seq<byte>)
    requires DecodePayload(t, s).Some?
    ensures var m := DecodePayload(t, s).value;
      Valid(m) && TypeOf(m) == t && Payload(m) == s
  {
    hide AcceptedText;
    if t == 1 {
      BigEndian.Bytes4Value4(s[..4]);
      assert s == s[..4] + s[4..];
    } else if t == 4 {
      assert s == [s[0]] + s[1..];
    }
  }

  /** Re-encoding an accepted packet returns the same bytes, so no two packets mean
      the same message and only valid messages are ever accepted. */
  lemma EncodeDecode(p: seq<byte>)
    requires Decode(p).Some?
    ensures Encode(Decode(p).value) == Some(p)
  {
    hide DecodePayload;
    PayloadDecoded(p[1], p[HEADER..]);
    assert p == [p[0], p[1]] + p[HEADER..];
  }

  // ----- the encoder, which fills a packet in place -----

  method SetHeader(packet: array<byte>, t: byte)
    requires packet.Length >= HEADER
    modifies packet
    ensures packet[..] == [VERSION, t] + old(packet[HEADER..])
  {
    packet[0] := VERSION;
    packet[1] := t;
  }

  method CopyInto(packet: array<byte>, offset: nat, s: seq<byte>)
    requires offset + |s| == packet.Length
    modifies packet
    ensures packet[..] == old(packet[..offset]) + s
  {
    for i := 0 to |s|
      invariant packet[..offset] == old(packet[..offset])
      invariant packet[offset..offset + i] == s[..i]
    {
      packet[offset + i] := s[i];
      assert packet[offset..offset + i + 1] == packet[offset..offset + i] + [s[i]];
    }
    assert packet[..] == packet[..offset] + packet[offset..];
  }

  method WriteUint32(packet: array<byte>, offset: nat, value: u32)
    requires offset + 4 <= packet.Length
    modifies packet
    ensures packet[offset..offset + 4] == BigEndian.Bytes4(value)
    ensures packet[..offset] == old(packet[..offset]) && packet[offset + 4..] == old(packet[offset + 4..])
  {
    var top := value / 0x100_0000;
    assert 0 <= top < 256;
    packet[offset] := top % 256;
    packet[offset + 1] := value / 0x1_0000 % 256;
    packet[offset + 2] := value / 0x100 % 256;
    packet[offset + 3] := value % 256;
  }

  method WriteStart(packet: array<byte>, uid: u32, session: Text)
    requires packet.Length == HEADER + 4 + |session|
    modifies packet
    ensures packet[..] == old(packet[..HEADER]) + BigEndian.Bytes4(uid) + session
  {
    hide BigEndian.Bytes4;
    WriteUint32(packet, HEADER, uid);
    assert packet[..HEADER + 4] == old(packet[..HEADER]) + BigEndian.Bytes4(uid);
    CopyInto(packet, HEADER + 4, session);
  }

  method WriteStatus(packet: array<byte>, kind: byte, text: Text)
    requires packet.Length == HEADER + 1 + |text|
    modifies packet
    ensures packet[..] == old(packet[..HEADER]) + [kind] + text
  {
    packet[HEADER] := kind;
    assert packet[..HEADER + 1] == old(packet[..HEADER]) + [kind];
    CopyInto(packet, HEADER + 1, text);
  }

  method WritePayload(packet: array<byte>, m: Message)
    requires packet.Length == HEADER + |Payload(m)|
    modifies packet
    ensures packet[..] == old(packet[..HEADER]) + Payload(m)
  {
    hide BigEndian.Bytes4;
    match m {
      case StartVerification(uid, session) =>
        WriteStart(packet, uid, session);
        assert old(packet[..HEADER]) + (BigEndian.Bytes4(uid) + session)
            == old(packet[..HEADER]) + BigEndian.Bytes4(uid) + session;
      case VerificationStatus(kind, text) =>
        WriteStatus(packet, kind, text);
        assert old(packet[..HEADER]) + ([kind] + text) == old(packet[..HEADER]) + [kind] + text;
      case SecretResponse(secret) => CopyInto(packet, HEADER, secret);
      case SecretRequired(prompt) => CopyInto(packet, HEADER, prompt);
      case VerificationComplete(result) => packet[HEADER] := result;
      case CancelVerification =>
    }
  }

  /** encode_verifier_message: allocate, write the header, write the payload. */
  method EncodeMessage(m: Message) returns (packet: Option<array<byte>>)
    ensures packet.Some? <==> Encode(m).Some?
    ensures packet.Some? ==> packet.value[..] == Encode(m).value
  {
    hide Valid, Payload;
    if !Valid(m) {
      return None;
    }
    var a: array<byte> := new byte[HEADER + |Payload(m)|](_ => 0);
    SetHeader(a, TypeOf(m));
    WritePayload(a, m);
    return Some(a);
  }
}
