/** Snapshot positions as text: a timestamp, a bar, and a record key. */
module Positions {
  import opened Wrappers
  import TextParts

  datatype Place = Place(createdAt: string, recordKey: string)

  datatype Decoded = Start | Member(place: Place) | Malformed

  predicate IsKey(s: string) { |s| == 64 && forall i | 0 <= i < 64 :: TextParts.HexDigit(s[i]) }

  function LastBar(s: string): (i: int)
    ensures -1 <= i < |s|
    ensures i >= 0 ==> s[i] == '|'
    ensures forall k | i < k < |s| :: s[k] != '|'
  {
    if s == [] then -1 else if s[|s| - 1] == '|' then |s| - 1 else LastBar(s[..|s| - 1])
  }

  /** encodeSnapshotPosition; isTime stands for Date.parse. */
  function Encode(p: Place, isTime: string -> bool): Option<string> {
    if !isTime(p.createdAt) || !IsKey(p.recordKey) || |p.createdAt| + 65 > 128 then None
    else Some(p.createdAt + ['|'] + p.recordKey)
  }

  /** decodeSnapshotPosition. */
  function Decode(s: string, isTime: string -> bool): Decoded {
    if s == ['0'] then Start
    else if s == [] || |s| > 128 then Malformed
    else
      var bar := LastBar(s);
      if bar <= 0 then Malformed
      else if !isTime(s[..bar]) || !IsKey(s[bar + 1..]) then Malformed
      else Member(Place(s[..bar], s[bar + 1..]))
  }

  /** A text decodes to a place exactly when it is that place's encoding - provided no empty text
      is a time. No encoding is mistaken for the start position. */
  lemma DecodeIff(s: string, p: Place, isTime: string -> bool)
    requires !isTime("")
    ensures Decode(s, isTime) == Member(p) <==> Encode(p, isTime) == Some(s)
  {
    if Encode(p, isTime) == Some(s) {
      var n := |p.createdAt|;
      assert s[n] == '|' && s[..n] == p.createdAt && s[n + 1..] == p.recordKey;
      var bar := LastBar(s);
      assert bar == n;
    }
    if Decode(s, isTime) == Member(p) {
      var bar := LastBar(s);
      assert s == s[..bar] + ['|'] + s[bar + 1..];
    }
  }
}
