/** canonicalRecordKey: the digest of seven length-prefixed UTF-8 fields. */
module RecordKey {
  import opened Wrappers
  import opened Words
  import opened Utf8
  import F = Fips180
  import Sha256
  import History

  // ---------------------------------------------------------------- the joined bytes

  /** Each field after its length, four bytes big-endian. */
  function Joined(fields: seq<seq<byte>>): seq<byte>
    requires forall i | 0 <= i < |fields| :: |fields[i]| < TWO_32
  {
    if fields == [] then []
    else BytesOf(|fields[0]|) + fields[0] + Joined(fields[1..])
  }

  /** The bytes parse one way only. */
  lemma {:induction false} JoinedInjective(x: seq<seq<byte>>, y: seq<seq<byte>>)
    requires forall i | 0 <= i < |x| :: |x[i]| < TWO_32
    requires forall i | 0 <= i < |y| :: |y[i]| < TWO_32
    requires Joined(x) == Joined(y)
    ensures x == y
  {
    hide BytesOf;
    if x != [] && y != [] {
      var jx, jy := Joined(x), Joined(y);
      assert jx[..4] == BytesOf(|x[0]|) && jy[..4] == BytesOf(|y[0]|);
      BigEndianBytes(|x[0]|);
      BigEndianBytes(|y[0]|);
      var n := 4 + |x[0]|;
      assert jx[4..n] == x[0] && jy[4..n] == y[0];
      assert jx[n..] == Joined(x[1..]) && jy[n..] == Joined(y[1..]);
      JoinedInjective(x[1..], y[1..]);
    }
  }

  function TotalLength(fields: seq<seq<byte>>): nat {
    if fields == [] then 0 else 4 + |fields[0]| + TotalLength(fields[1..])
  }

  lemma {:induction false} JoinedLength(fields: seq<seq<byte>>)
    requires forall i | 0 <= i < |fields| :: |fields[i]| < TWO_32
    ensures |Joined(fields)| == TotalLength(fields)
  {
    if fields != [] { JoinedLength(fields[1..]); }
  }

  lemma JoinedStep(fields: seq<seq<byte>>, k: nat)
    requires forall i | 0 <= i < |fields| :: |fields[i]| < TWO_32
    requires k < |fields|
    ensures Joined(fields[k..]) == BytesOf(|fields[k]|) + fields[k] + Joined(fields[k + 1..])
    ensures TotalLength(fields[k..]) == 4 + |fields[k]| + TotalLength(fields[k + 1..])
  {
    assert fields[k..][1..] == fields[k + 1..];
  }

  /** The loops that size and fill the buffer. */
  method Join(fields: seq<seq<byte>>) returns (joined: array<byte>)
    requires forall i | 0 <= i < |fields| :: |fields[i]| < TWO_32
    ensures fresh(joined) && joined[..] == Joined(fields)
  {
    hide BytesOf, Joined, TotalLength;
    NoFields();
    var total: nat := 0;
    assert fields[0..] == fields;
    for k := 0 to |fields|
      invariant total + TotalLength(fields[k..]) == TotalLength(fields)
    {
      JoinedStep(fields, k);
      total := total + 4 + |fields[k]|;
    }
    assert fields[|fields|..] == [];
    JoinedLength(fields);
    joined := new byte[total](_ => 0);
    var offset := 0;
    for k := 0 to |fields|
      invariant offset + TotalLength(fields[k..]) == joined.Length == TotalLength(fields)
      invariant offset <= joined.Length && joined[..offset] + Joined(fields[k..]) == Joined(fields)
    {
      JoinedStep(fields, k);
      ghost var before := joined[..offset];
      Sha256.Store(joined, offset, |fields[k]|, before);
      LengthWord(|fields[k]|);
      offset := offset + 4;
      Fill(joined, offset, fields[k]);
      offset := offset + |fields[k]|;
      assert joined[..offset] == before + BytesOf(|fields[k]|) + fields[k];
      assert joined[..offset] + Joined(fields[k + 1..]) == before + Joined(fields[k..]);
    }
    assert joined[..] == joined[..offset];
    assert joined[..offset] + Joined(fields[|fields|..]) == joined[..offset];
  }

  lemma NoFields()
    ensures Joined([]) == [] && TotalLength([]) == 0
  {
  }

  lemma LengthWord(n: nat)
    requires n < TWO_32
    ensures Sha256.ToUint32(n) == n
  {
  }

  /** joined.set(bytes, offset). */
  method Fill(a: array<byte>, off: nat, b: seq<byte>)
    requires off + |b| <= a.Length
    modifies a
    ensures a[..off + |b|] == old(a[..off]) + b
  {
    for i := 0 to |b|
      invariant a[..off + i] == old(a[..off]) + b[..i]
    {
      a[off + i] := b[i];
    }
    assert b[..|b|] == b;
  }

  // ---------------------------------------------------------------- the seven fields

  datatype Identity = Identity(owner: seq<unit>, direction: History.Direction, messageBox: seq<unit>, sender: seq<unit>,
                               recipient: seq<unit>, messageId: seq<unit>)

  /** ASCII text as code units. */
  function Ascii(s: string): (u: seq<unit>)
    ensures |u| == |s| && forall i | 0 <= i < |u| :: u[i] < 0x80
  {
    seq<unit>(|s|, i requires 0 <= i < |s| => s[i] as int % 0x80)
  }

  function Domain(): seq<unit> { Ascii("message-box-store:record:v1") }

  function DirectionText(d: History.Direction): seq<unit> {
    match d
    case Inbound => Ascii("inbound")
    case Outbound => Ascii("outbound")
  }

  predicate HexUnit(u: unit) { 0x30 <= u <= 0x39 || 0x61 <= u <= 0x66 }

  /** IDENTITY_KEY_RE. */
  predicate IsIdentityKey(s: seq<unit>) {
    |s| == 66 && s[0] == 0x30 && s[1] in {0x32, 0x33} && forall i | 2 <= i < 66 :: HexUnit(s[i])
  }

  /** What String.prototype.trim removes. */
  predicate Space(u: unit) {
    u in {0x09, 0x0A, 0x0B, 0x0C, 0x0D, 0x20, 0xA0, 0x1680, 0x2028, 0x2029, 0x202F, 0x205F, 0x3000, 0xFEFF}
    || 0x2000 <= u <= 0x200A
  }

  /** assertExactString. */
  predicate ExactString(s: seq<unit>, max: nat) {
    && !HasLone(s) && 1 <= |s| <= max
    && (forall i | 0 <= i < |s| :: s[i] >= 0x20 && s[i] != 0x7F)
    && (exists i :: 0 <= i < |s| && !Space(s[i]))
  }

  predicate ValidIdentity(x: Identity) {
    && IsIdentityKey(x.owner) && IsIdentityKey(x.sender) && IsIdentityKey(x.recipient)
    && ExactString(x.messageBox, 128) && ExactString(x.messageId, 256)
  }

  function FieldsOf(x: Identity): (f: seq<seq<unit>>)
    ensures |f| == 7
  {
    [Domain(), x.owner, DirectionText(x.direction), x.messageBox, x.sender, x.recipient, x.messageId]
  }

  function Encoded(fields: seq<seq<unit>>): (e: seq<seq<byte>>)
    ensures |e| == |fields| && forall i | 0 <= i < |fields| :: e[i] == Encode(fields[i])
  {
    seq(|fields|, i requires 0 <= i < |fields| => Encode(fields[i]))
  }

  lemma AsciiHasNoLone(s: seq<unit>)
    requires forall i | 0 <= i < |s| :: s[i] < 0x80
    ensures !HasLone(s)
  {
    forall i | 0 <= i < |s| ensures !LoneAt(s, i) {}
  }

  lemma ValidFields(x: Identity)
    requires ValidIdentity(x)
    ensures forall i | 0 <= i < 7 :: |FieldsOf(x)[i]| <= 256 && !HasLone(FieldsOf(x)[i])
  {
    hide HasLone, LoneAt;
    AsciiHasNoLone(Domain());
    AsciiHasNoLone(x.owner);
    AsciiHasNoLone(DirectionText(x.direction));
    AsciiHasNoLone(x.sender);
    AsciiHasNoLone(x.recipient);
    var f := FieldsOf(x);
    forall i | 0 <= i < 7 ensures |f[i]| <= 256 && !HasLone(f[i]) {
      assert i == 0 || i == 1 || i == 2 || i == 3 || i == 4 || i == 5 || i == 6;
    }
  }

  lemma ShortFields(x: Identity)
    requires ValidIdentity(x)
    ensures forall i | 0 <= i < 7 :: |Encoded(FieldsOf(x))[i]| <= 1024
    ensures TotalLength(Encoded(FieldsOf(x))) <= 7 * 1028
  {
    hide Encode, HasLone, ValidIdentity;
    var e := Encoded(FieldsOf(x));
    ValidFields(x);
    forall i | 0 <= i < 7 ensures |e[i]| <= 1024 { EncodeLength(FieldsOf(x)[i]); }
    TotalAtMost(e, 1024);
  }

  lemma {:induction false} TotalAtMost(e: seq<seq<byte>>, n: nat)
    requires forall i | 0 <= i < |e| :: |e[i]| <= n
    ensures TotalLength(e) <= |e| * (4 + n)
  {
    if e != [] {
      TotalAtMost(e[1..], n);
      assert |e| * (4 + n) == (|e| - 1) * (4 + n) + (4 + n);
    }
  }

  /** The bytes that are hashed. */
  function Preimage(x: Identity): (p: seq<byte>)
    requires ValidIdentity(x)
    ensures |p| <= 7 * 1028
  {
    ShortFields(x);
    JoinedLength(Encoded(FieldsOf(x)));
    Joined(Encoded(FieldsOf(x)))
  }

  /** Different validated identities are hashed from different bytes. */
  lemma PreimageInjective(x: Identity, y: Identity)
    requires ValidIdentity(x) && ValidIdentity(y) && Preimage(x) == Preimage(y)
    ensures x == y
  {
    hide Encode, HasLone, ValidIdentity, DirectionText;
    ShortFields(x);
    ShortFields(y);
    var fx, fy := FieldsOf(x), FieldsOf(y);
    JoinedInjective(Encoded(fx), Encoded(fy));
    ValidFields(x);
    ValidFields(y);
    forall i | 0 <= i < 7 ensures fx[i] == fy[i] {
      assert Encoded(fx)[i] == Encoded(fy)[i];
      EncodeInjective(fx[i], fy[i]);
    }
    DirectionTexts(x.direction, y.direction);
    assert fx[1] == fy[1] && fx[2] == fy[2] && fx[3] == fy[3] && fx[4] == fy[4] && fx[5] == fy[5] && fx[6] == fy[6];
  }

  lemma DirectionTexts(a: History.Direction, b: History.Direction)
    ensures DirectionText(a) == DirectionText(b) ==> a == b
  {
    assert |DirectionText(History.Inbound)| == 7 && |DirectionText(History.Outbound)| == 8;
  }

  // ---------------------------------------------------------------- the key

  const HEX := "0123456789abcdef"

  function Hex(b: seq<byte>): (h: string)
    ensures |h| == 2 * |b|
  {
    if b == [] then [] else Hex(b[..|b| - 1]) + [HEX[b[|b| - 1] / 16], HEX[b[|b| - 1] % 16]]
  }

  lemma {:induction false} HexInjective(x: seq<byte>, y: seq<byte>)
    requires Hex(x) == Hex(y)
    ensures x == y
  {
    if x != [] {
      var hx, hy := Hex(x), Hex(y);
      var n := |hx|;
      assert hx[..n - 2] == Hex(x[..|x| - 1]) && hy[..n - 2] == Hex(y[..|y| - 1]);
      HexInjective(x[..|x| - 1], y[..|y| - 1]);
      assert hx[n - 2] == hy[n - 2] && hx[n - 1] == hy[n - 1];
      HexDigits(x[|x| - 1] / 16, y[|y| - 1] / 16);
      HexDigits(x[|x| - 1] % 16, y[|y| - 1] % 16);
    }
  }

  lemma HexDigits(i: nat, j: nat)
    requires i < 16 && j < 16 && HEX[i] == HEX[j]
    ensures i == j
  {
  }

  /** canonicalRecordKey: None is a TypeError. */
  function KeyOf(x: Identity): Option<string> {
    if ValidIdentity(x) then Some(Hex(F.Digest(Preimage(x)))) else None
  }

  method CanonicalRecordKey(x: Identity) returns (key: Option<string>)
    ensures key == KeyOf(x)
  {
    hide Encode, ValidIdentity, Joined, FieldsOf, F.Digest;
    if !ValidIdentity(x) { return None; }
    ShortFields(x);
    JoinedLength(Encoded(FieldsOf(x)));
    var joined := Join(Encoded(FieldsOf(x)));
    var digest := Sha256.Sha256Bytes(joined[..]);
    var hex := "";
    for i := 0 to digest.Length
      invariant hex == Hex(digest[..i])
    {
      assert digest[..i + 1][..i] == digest[..i];
      hex := hex + [HEX[digest[i] / 16], HEX[digest[i] % 16]];
    }
    assert digest[..digest.Length] == digest[..];
    return Some(hex);
  }

  /** Two messages share a key only if they are the same message in the same box, direction and
      hands - or their preimages are a collision of SHA-256. */
  lemma SameKeySameMessage(x: Identity, y: Identity)
    requires KeyOf(x).Some? && KeyOf(x) == KeyOf(y)
    ensures x == y || (Preimage(x) != Preimage(y) && F.Digest(Preimage(x)) == F.Digest(Preimage(y)))
  {
    hide Preimage, ValidIdentity, F.Digest;
    HexInjective(F.Digest(Preimage(x)), F.Digest(Preimage(y)));
    if Preimage(x) == Preimage(y) { PreimageInjective(x, y); }
  }
}
