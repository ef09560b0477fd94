/** The shape of the messages that the send validator lets through, and samples of it. */
module AcceptedMessages {
  import opened Common
  import opened MessageQueue

  predicate LowerHex(c: char) {
    '0' <= c <= '9' || 'a' <= c <= 'f'
  }

  predicate DeviceChar(c: char) {
    '0' <= c <= '9' || 'a' <= c <= 'z' || 'A' <= c <= 'Z' || c == '-'
  }

  predicate ValidDevice(d: string) {
    32 <= |d| <= 128 && forall c | c in d :: DeviceChar(c)
  }

  predicate HexGroup(text: string, from: nat, to: nat)
    requires from <= to <= |text|
  {
    forall i | from <= i < to :: LowerHex(text[i])
  }

  /** Lower-case hex in groups of 8, 4, 4, 4 and 12. */
  predicate ValidUuid(id: string) {
    |id| == 36 && HexGroup(id, 0, 8) && id[8] == '-' && HexGroup(id, 9, 13) && id[13] == '-' &&
    HexGroup(id, 14, 18) && id[18] == '-' && HexGroup(id, 19, 23) && id[23] == '-' && HexGroup(id, 24, 36)
  }

  /** The send validator; every UUID is also an accepted message id. */
  predicate Accepted(m: Message) {
    ValidUuid(m.messageId) && ValidDevice(m.recipientDeviceId) && |m.blob| <= 256 * 1024 &&
    ValidDevice(m.senderDeviceId) && ValidUuid(m.senderAccountId)
  }

  function ToUuid(a: string, b: string, c: string, d: string, e: string): string {
    a + "-" + b + "-" + c + "-" + d + "-" + e
  }

  lemma UuidShape(a: string, b: string, c: string, d: string, e: string)
    requires |a| == 8 && |b| == |c| == |d| == 4 && |e| == 12
    requires forall x :: x in a + b + c + d + e ==> LowerHex(x)
    ensures ValidUuid(ToUuid(a, b, c, d, e))
  {
    var id := ToUuid(a, b, c, d, e);
    assert id[..8] == a && id[9..13] == b && id[14..18] == c && id[19..23] == d && id[24..] == e;
    forall i | 0 <= i < 8 ensures LowerHex(id[i]) { assert id[i] == a[i] && a[i] in a; }
    forall i | 9 <= i < 13 ensures LowerHex(id[i]) { assert id[i] == b[i - 9] && b[i - 9] in b; }
    forall i | 14 <= i < 18 ensures LowerHex(id[i]) { assert id[i] == c[i - 14] && c[i - 14] in c; }
    forall i | 19 <= i < 23 ensures LowerHex(id[i]) { assert id[i] == d[i - 19] && d[i - 19] in d; }
    forall i | 24 <= i < 36 ensures LowerHex(id[i]) { assert id[i] == e[i - 24] && e[i - 24] in e; }
  }

  const ID := ToUuid(Fill('0', 8), Fill('0', 4), Fill('4', 4), Fill('8', 4), Fill('0', 12))
  const OTHER_ID := ToUuid(Fill('1', 8), Fill('0', 4), Fill('4', 4), Fill('8', 4), Fill('0', 12))
  const ALICE := Fill('a', 32)
  const BOB := Fill('b', 32)

  function First(): Message {
    Message(ID, ALICE, "x", BOB, ID)
  }

  /** The same id for another device. */
  function Again(): Message {
    Message(ID, BOB, "y", BOB, ID)
  }

  /** Another message for the first one's device. */
  function Second(): Message {
    Message(OTHER_ID, ALICE, "z", BOB, ID)
  }

  lemma AcceptedShape()
    ensures Accepted(First()) && Accepted(Again()) && Accepted(Second()) && ALICE != BOB && ID != OTHER_ID
  {
    UuidShape(Fill('0', 8), Fill('0', 4), Fill('4', 4), Fill('8', 4), Fill('0', 12));
    UuidShape(Fill('1', 8), Fill('0', 4), Fill('4', 4), Fill('8', 4), Fill('0', 12));
    assert ALICE[0] != BOB[0] && ID[0] != OTHER_ID[0];
  }
}
