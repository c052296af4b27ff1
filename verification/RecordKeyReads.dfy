/** What a record key was computed from, read back: the seven fields from the bytes that are hashed,
    the digest from its digits, and which identities have a key at all. */
module RecordKeyReads {
  import opened Wrappers
  import opened Words
  import opened Utf8
  import opened RecordKey
  import F = Fips180
  import History
  import TextParts

  // ---------------------------------------------------------------- the fields

  /** The byte strings of which these are the length-prefixed forms, one after another. */
  function Fields(p: seq<byte>): Option<seq<seq<byte>>> {
    if p == [] then Some([])
    else if |p| < 4 || |p| < 4 + BigEndian(p[..4]) then None
    else
      var n := BigEndian(p[..4]);
      var rest := Fields(p[4 + n..]);
      if rest.None? then None else Some([p[4..4 + n]] + rest.value)
  }

  lemma {:induction false} JoinedReads(fields: seq<seq<byte>>)
    requires forall i | 0 <= i < |fields| :: |fields[i]| < TWO_32
    ensures Fields(Joined(fields)) == Some(fields)
  {
    hide BytesOf, BigEndian;
    if fields != [] {
      var p, n := Joined(fields), |fields[0]|;
      BigEndianBytes(n);
      assert p[..4] == BytesOf(n) && p[4..4 + n] == fields[0] && p[4 + n..] == Joined(fields[1..]);
      JoinedReads(fields[1..]);
      assert fields == [fields[0]] + fields[1..];
    }
  }

  /** The bytes are the code units. */
  predicate Same(b: seq<byte>, s: seq<unit>) {
    |b| == |s| && forall i | 0 <= i < |s| :: b[i] == s[i]
  }

  lemma {:induction false} AsciiEncodes(s: seq<unit>)
    requires forall i | 0 <= i < |s| :: s[i] < 0x80
    ensures Same(Encode(s), s)
  {
    if s != [] {
      AsciiEncodes(s[1..]);
      assert Encode(s) == [s[0]] + Encode(s[1..]);
      assert s == [s[0]] + s[1..];
    }
  }

  /** "message-box-store:record:v1". */
  const DOMAIN: seq<unit> := [
    0x6D, 0x65, 0x73, 0x73, 0x61, 0x67, 0x65, 0x2D, 0x62, 0x6F, 0x78, 0x2D, 0x73, 0x74, 0x6F, 0x72, 0x65, 0x3A,
    0x72, 0x65, 0x63, 0x6F, 0x72, 0x64, 0x3A, 0x76, 0x31]

  /** "inbound" and "outbound". */
  const INBOUND: seq<unit> := [0x69, 0x6E, 0x62, 0x6F, 0x75, 0x6E, 0x64]
  const OUTBOUND: seq<unit> := [0x6F, 0x75, 0x74, 0x62, 0x6F, 0x75, 0x6E, 0x64]

  lemma DomainSpelled()
    ensures Domain() == DOMAIN
  {
    assert |"message-box-store:record:v1"| == |DOMAIN|;
  }

  lemma DirectionsSpelled()
    ensures DirectionText(History.Inbound) == INBOUND && DirectionText(History.Outbound) == OUTBOUND
  {
    assert |"inbound"| == |INBOUND| && |"outbound"| == |OUTBOUND|;
  }

  /** Read back, the bytes that are hashed are the domain, the owner's key, the direction, the box, the
      sender's key, the recipient's key and the message id, and nothing more. */
  lemma PreimageReads(x: Identity)
    requires ValidIdentity(x)
    ensures var f := Fields(Preimage(x));
            && f.Some? && |f.value| == 7
            && Same(f.value[0], DOMAIN)
            && Same(f.value[1], x.owner)
            && Same(f.value[2], if x.direction == History.Inbound then INBOUND else OUTBOUND)
            && f.value[3] == Encode(x.messageBox)
            && Same(f.value[4], x.sender)
            && Same(f.value[5], x.recipient)
            && f.value[6] == Encode(x.messageId)
  {
    hide Encode, Joined, HasLone, Fields, Domain, TotalLength;
    var e := Encoded(FieldsOf(x));
    ShortFields(x);
    JoinedReads(e);
    DomainSpelled();
    DirectionsSpelled();
    AsciiEncodes(Domain());
    AsciiEncodes(DirectionText(x.direction));
    AsciiEncodes(x.owner);
    AsciiEncodes(x.sender);
    AsciiEncodes(x.recipient);
  }

  // ---------------------------------------------------------------- which identities have a key

  function CodeUnits(s: string): (u: seq<unit>)
    requires forall i | 0 <= i < |s| :: s[i] as int < 0x1_0000
    ensures |u| == |s| && forall i | 0 <= i < |s| :: u[i] == s[i] as int
  {
    seq<unit>(|s|, i requires 0 <= i < |s| => s[i] as int)
  }

  /** The expression for identity keys is the one the restorer uses. */
  lemma IdentityKeysAgree(s: string)
    requires forall i | 0 <= i < |s| :: s[i] as int < 0x1_0000
    ensures IsIdentityKey(CodeUnits(s)) <==> TextParts.IdentityKey(s)
  {
    var u := CodeUnits(s);
    if |s| == 66 {
      assert forall i | 2 <= i < 66 :: HexUnit(u[i]) <==> TextParts.HexDigit(s[i]);
    }
  }

  lemma SpacesAgree(c: char)
    requires c as int < 0x1_0000
    ensures Space(c as int) <==> TextParts.Space(c)
  {
  }

  /** A box or an id passes: valid Unicode, of 1 to max code units, none of them a control character,
      and not empty once trimmed. */
  predicate Passes(s: seq<unit>, max: nat) {
    && !HasLone(s) && s != [] && |s| <= max && TextParts.Trim(s, Space) != []
    && forall i | 0 <= i < |s| :: !(0 <= s[i] <= 0x1F) && s[i] != 0x7F
  }

  /** Exactly these identities have a key; for all others a TypeError is thrown. */
  lemma KeyedIff(x: Identity)
    ensures KeyOf(x).Some? <==>
              && IsIdentityKey(x.owner) && IsIdentityKey(x.sender) && IsIdentityKey(x.recipient)
              && Passes(x.messageBox, 128) && Passes(x.messageId, 256)
  {
    hide HasLone, Space, TextParts.Trim, IsIdentityKey, Preimage, F.Digest;
    TextParts.BlankIff(x.messageBox, Space);
    TextParts.BlankIff(x.messageId, Space);
  }

  // ---------------------------------------------------------------- the digits

  /** A key is 64 lowercase hexadecimal digits, and each two of them are a byte of the digest. */
  lemma DigestReads(x: Identity, i: nat)
    requires KeyOf(x).Some? && i < 32
    ensures var h := KeyOf(x).value;
            && |h| == 64 && TextParts.HexDigit(h[2 * i]) && TextParts.HexDigit(h[2 * i + 1])
            && TextParts.ValueOf(h[2 * i]) * 16 + TextParts.ValueOf(h[2 * i + 1]) == F.Digest(Preimage(x))[i]
  {
    hide Preimage, F.Digest, ValidIdentity;
    HexReads(F.Digest(Preimage(x)), i);
  }

  lemma {:induction false} HexReads(b: seq<byte>, i: nat)
    requires i < |b|
    ensures var h := Hex(b);
            && TextParts.HexDigit(h[2 * i]) && TextParts.HexDigit(h[2 * i + 1])
            && TextParts.ValueOf(h[2 * i]) * 16 + TextParts.ValueOf(h[2 * i + 1]) == b[i]
  {
    var n := |b| - 1;
    if i < n {
      HexReads(b[..n], i);
      assert Hex(b)[2 * i] == Hex(b[..n])[2 * i] && Hex(b)[2 * i + 1] == Hex(b[..n])[2 * i + 1];
    } else {
      HexDigitReads(b[i] / 16);
      HexDigitReads(b[i] % 16);
    }
  }

  lemma HexDigitReads(v: nat)
    requires v < 16
    ensures TextParts.HexDigit(HEX[v]) && TextParts.ValueOf(HEX[v]) == v
  {
  }
}
