/** Bytes, 32-bit words, and their big-endian form. */
module Words {
  const TWO_32 := 0x1_0000_0000

  type byte = x: int | 0 <= x < 256
  type word = x: int | 0 <= x < TWO_32

  function BytesOf(w: word): (b: seq<byte>)
    ensures |b| == 4
  {
    [w / 0x100_0000, w / 0x1_0000 % 256, w / 256 % 256, w % 256]
  }

  function BigEndian(b: seq<byte>): word
    requires |b| == 4
  {
    b[0] as int * 0x100_0000 + b[1] as int * 0x1_0000 + b[2] as int * 256 + b[3] as int
  }

  lemma BigEndianBytes(w: word)
    ensures BigEndian(BytesOf(w)) == w
  {
    var q := w / 256;
    var p := q / 256;
    assert w / 0x1_0000 == p && w / 0x100_0000 == p / 256;
  }
}
