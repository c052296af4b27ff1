/** Owner epochs: the generations a delete-all rotates through. */
module Epochs {
  import opened Wrappers
  import opened Decimals

  const PREFIX := ['g', 'e', 'n', '-']

  /** parseEpochGeneration: a canonical number after the prefix. */
  function Generation(epoch: string): (g: Option<nat>) {
    if |epoch| > 4 && epoch[..4] == PREFIX && (forall i | 4 <= i < |epoch| :: IsDigit(epoch[i])) then
      var digits := epoch[4..];
      if Spell(Value(digits)) == digits then Some(Value(digits)) else None
    else None
  }

  function Name(g: nat): string { PREFIX + Spell(g) }

  datatype Rotation = Next(epoch: string) | Exhausted | Random

  /** rotateOwnerEpoch; Random is a fresh identifier of another shape, unlike the current one. */
  function Rotate(epoch: string): Rotation {
    match Generation(epoch)
    case None => Random
    case Some(g) => if g >= UINT64_MAX then Exhausted else Next(Name(g + 1))
  }

  /** The generations and their names correspond. */
  lemma GenerationIff(epoch: string, g: nat)
    ensures Generation(epoch) == Some(g) <==> epoch == Name(g)
  {
    SpellIsCanonical(g);
    assert Name(g)[4..] == Spell(g) && Name(g)[..4] == PREFIX;
    if Generation(epoch) == Some(g) {
      assert epoch == epoch[..4] + epoch[4..];
    }
  }

  /** The epoch after n rotations; None once the generations have run out. */
  function After(epoch: string, n: nat): Option<string> {
    if n == 0 then Some(epoch)
    else
      var before := After(epoch, n - 1);
      if before.Some? && Rotate(before.value).Next? then Some(Rotate(before.value).epoch) else None
  }

  lemma {:induction false} AfterIs(g: nat, n: nat)
    ensures After(Name(g), n) == if n == 0 || g + n <= UINT64_MAX then Some(Name(g + n)) else None
  {
    hide Rotate, Name;
    if n > 0 {
      AfterIs(g, n - 1);
      RotateName(g + n - 1);
    }
  }

  lemma RotateName(g: nat)
    ensures Rotate(Name(g)) == if g >= UINT64_MAX then Exhausted else Next(Name(g + 1))
  {
    hide Generation, Name;
    GenerationIff(Name(g), g);
  }

  /** An epoch is never used twice, however often it is rotated: a position of an old epoch is
      never mistaken for one of the current. */
  lemma RotationsNeverRepeat(g: nat, m: nat, n: nat)
    requires m < n && After(Name(g), n).Some?
    ensures After(Name(g), m).Some? && After(Name(g), m) != After(Name(g), n)
  {
    AfterIs(g, m);
    AfterIs(g, n);
    GenerationIff(Name(g + m), g + m);
    GenerationIff(Name(g + n), g + n);
  }
}
