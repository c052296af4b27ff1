/** The hand-written JSON skipper and the search for duplicate members. */
module JsonSkip {
  import opened Wrappers
  import opened Utf8
  import opened JsonGrammar

  const MAX_DEPTH := 100

  // ---------------------------------------------------------------- the scanners as functions

  function SkipBlanks(t: seq<unit>, i: nat): (r: nat)
    requires i <= |t|
    ensures i <= r <= |t|
    decreases |t| - i
  {
    if i < |t| && Blank(t[i]) then SkipBlanks(t, i + 1) else i
  }

  /** The closing quote of a string whose characters start at i; -1 if there is none. A \u
      escape is passed over six units at a time, whatever they are. */
  function StringEnd(t: seq<unit>, i: nat): (r: int)
    ensures r == -1 || i <= r < |t|
    decreases |t| - i
  {
    if i >= |t| then -1
    else if t[i] == QUOTE then i
    else if t[i] == BACKSLASH then
      StringEnd(t, if i + 1 < |t| && t[i + 1] == 0x75 then i + 6 else i + 2)
    else if t[i] < 0x20 then -1
    else StringEnd(t, i + 1)
  }

  predicate At(t: seq<unit>, i: nat, s: seq<unit>) {
    i + |s| <= |t| && t[i..i + |s|] == s
  }

  function SkipDigits(t: seq<unit>, i: nat): (r: nat)
    requires i <= |t|
    ensures i <= r <= |t|
    decreases |t| - i
  {
    if i < |t| && Digit(t[i]) then SkipDigits(t, i + 1) else i
  }

  /** The literal expression's longest match. */
  function LiteralEnd(t: seq<unit>, i: nat): (r: int)
    requires i < |t|
    ensures r == -1 || i < r <= |t|
  {
    if At(t, i, TRUE) then i + 4
    else if At(t, i, FALSE) then i + 5
    else if At(t, i, NULL) then i + 4
    else NumberEnd(t, if t[i] == 0x2D then i + 1 else i)
  }

  function NumberEnd(t: seq<unit>, i: nat): (r: int)
    requires i <= |t|
    ensures r == -1 || i < r <= |t|
  {
    if i >= |t| || !Digit(t[i]) then -1
    else
      var whole := if t[i] == 0x30 then i + 1 else SkipDigits(t, i + 1);
      ExponentEnd(t, FractionEnd(t, whole))
  }

  function FractionEnd(t: seq<unit>, i: nat): (r: nat)
    requires i <= |t|
    ensures i <= r <= |t|
  {
    if i + 1 < |t| && t[i] == 0x2E && Digit(t[i + 1]) then SkipDigits(t, i + 1) else i
  }

  function ExponentEnd(t: seq<unit>, i: nat): (r: nat)
    requires i <= |t|
    ensures i <= r <= |t|
  {
    if i < |t| && (t[i] == 0x65 || t[i] == 0x45) then
      var signed := if i + 1 < |t| && (t[i + 1] == 0x2B || t[i + 1] == 0x2D) then i + 2 else i + 1;
      if signed < |t| && Digit(t[signed]) then SkipDigits(t, signed) else i
    else i
  }

  /** skipJsonValue. */
  function SkipValue(t: seq<unit>, index: nat, depth: nat): (r: int)
    requires index <= |t|
    ensures r == -1 || index < r <= |t|
    decreases |t| - index, 1
  {
    if depth > MAX_DEPTH then -1
    else
      var i := SkipBlanks(t, index);
      if i >= |t| then -1
      else if t[i] == QUOTE then
        var end := StringEnd(t, i + 1);
        if end == -1 then -1 else end + 1
      else if t[i] == OPEN_OBJECT then
        var j := SkipBlanks(t, i + 1);
        if j < |t| && t[j] == CLOSE_OBJECT then j + 1 else SkipMembers(t, j, depth)
      else if t[i] == OPEN_ARRAY then
        var j := SkipBlanks(t, i + 1);
        if j < |t| && t[j] == CLOSE_ARRAY then j + 1 else SkipElements(t, j, depth)
      else LiteralEnd(t, i)
  }

  /** The object loop, from a place where a name is due. */
  function SkipMembers(t: seq<unit>, i: nat, depth: nat): (r: int)
    requires i <= |t|
    ensures r == -1 || i < r <= |t|
    decreases |t| - i, 2
  {
    var i1 := SkipBlanks(t, i);
    if i1 >= |t| || t[i1] != QUOTE then -1
    else
      var keyEnd := StringEnd(t, i1 + 1);
      if keyEnd == -1 then -1
      else
        var i2 := SkipBlanks(t, keyEnd + 1);
        if i2 >= |t| || t[i2] != COLON then -1
        else
          var i3 := SkipValue(t, i2 + 1, depth + 1);
          if i3 == -1 then -1
          else
            var i4 := SkipBlanks(t, i3);
            if i4 >= |t| then -1
            else if t[i4] == CLOSE_OBJECT then i4 + 1
            else if t[i4] != COMMA then -1
            else SkipMembers(t, i4 + 1, depth)
  }

  function SkipElements(t: seq<unit>, i: nat, depth: nat): (r: int)
    requires i <= |t|
    ensures r == -1 || i < r <= |t|
    decreases |t| - i, 2
  {
    var i1 := SkipValue(t, i, depth + 1);
    if i1 == -1 then -1
    else
      var i2 := SkipBlanks(t, i1);
      if i2 >= |t| then -1
      else if t[i2] == CLOSE_ARRAY then i2 + 1
      else if t[i2] != COMMA then -1
      else SkipElements(t, i2 + 1, depth)
  }

  // ---------------------------------------------------------------- the scanners as written

  method SkipJsonWhitespace(t: seq<unit>, start: nat) returns (index: nat)
    requires start <= |t|
    ensures index == SkipBlanks(t, start)
  {
    index := start;
    while index < |t|
      invariant index <= |t| && SkipBlanks(t, index) == SkipBlanks(t, start)
    {
      if Blank(t[index]) { index := index + 1; } else { break; }
    }
  }

  method ScanJsonStringEnd(t: seq<unit>, index: nat) returns (end: int)
    ensures end == StringEnd(t, index + 1)
  {
    var i := index + 1;
    while i < |t|
      invariant StringEnd(t, i) == StringEnd(t, index + 1)
      decreases |t| - i
    {
      var code := t[i];
      if code == QUOTE { return i; }
      if code == BACKSLASH {
        if i + 1 < |t| && t[i + 1] == 0x75 { i := i + 6; } else { i := i + 2; }
        continue;
      }
      if code < 0x20 { return -1; }
      i := i + 1;
    }
    return -1;
  }

  method SkipJsonValue(t: seq<unit>, index: nat, depth: nat) returns (end: int)
    requires index <= |t|
    ensures end == SkipValue(t, index, depth)
    decreases |t| - index, 1
  {
    hide LiteralEnd, StringEnd, SkipBlanks;
    if depth > MAX_DEPTH { return -1; }
    var i := SkipJsonWhitespace(t, index);
    if i >= |t| { return -1; }
    if t[i] == QUOTE {
      var close := ScanJsonStringEnd(t, i);
      return if close == -1 then -1 else close + 1;
    }
    if t[i] == OPEN_OBJECT {
      var j := SkipJsonWhitespace(t, i + 1);
      if j < |t| && t[j] == CLOSE_OBJECT { return j + 1; }
      end := SkipObject(t, j, depth);
      return;
    }
    if t[i] == OPEN_ARRAY {
      var j := SkipJsonWhitespace(t, i + 1);
      if j < |t| && t[j] == CLOSE_ARRAY { return j + 1; }
      end := SkipArray(t, j, depth);
      return;
    }
    return LiteralEnd(t, i);
  }

  method SkipObject(t: seq<unit>, start: nat, depth: nat) returns (end: int)
    requires start <= |t|
    ensures end == SkipMembers(t, start, depth)
    decreases |t| - start, 2
  {
    hide SkipValue, StringEnd, SkipBlanks;
    var i: int := start;
    while true
      invariant start <= i <= |t| && SkipMembers(t, i, depth) == SkipMembers(t, start, depth)
      decreases |t| - i
    {
      i := SkipJsonWhitespace(t, i);
      if i >= |t| || t[i] != QUOTE { return -1; }
      var keyEnd := ScanJsonStringEnd(t, i);
      if keyEnd == -1 { return -1; }
      i := SkipJsonWhitespace(t, keyEnd + 1);
      if i >= |t| || t[i] != COLON { return -1; }
      i := SkipJsonValue(t, i + 1, depth + 1);
      if i == -1 { return -1; }
      i := SkipJsonWhitespace(t, i);
      if i >= |t| { return -1; }
      if t[i] == CLOSE_OBJECT { return i + 1; }
      if t[i] != COMMA { return -1; }
      i := i + 1;
    }
  }

  method SkipArray(t: seq<unit>, start: nat, depth: nat) returns (end: int)
    requires start <= |t|
    ensures end == SkipElements(t, start, depth)
    decreases |t| - start, 2
  {
    hide SkipValue, SkipBlanks;
    var i: int := start;
    while true
      invariant start <= i <= |t| && SkipElements(t, i, depth) == SkipElements(t, start, depth)
      decreases |t| - i
    {
      i := SkipJsonValue(t, i, depth + 1);
      if i == -1 { return -1; }
      i := SkipJsonWhitespace(t, i);
      if i >= |t| { return -1; }
      if t[i] == CLOSE_ARRAY { return i + 1; }
      if t[i] != COMMA { return -1; }
      i := i + 1;
    }
  }
}
